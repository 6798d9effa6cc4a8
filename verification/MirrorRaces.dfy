/** Each hypothesis of Careful is needed: four runs of a two-member RAID1 volume
  * of one sector, each of which breaks a single hypothesis and ends with a LIVE
  * copy that does not hold an acknowledged write. */
module MirrorRaces {
  import opened Common
  import opened Mirror
  import opened MirrorShape
  import opened MirrorExclusion
  import opened MirrorData

  type Hypothesis = (Volume, Step) -> bool

  /** t can follow s through steps that all satisfy ok. */
  ghost predicate Reaches(s: Volume, t: Volume, ok: Hypothesis) {
    Shape(s) && exists ls :: Follows(s, ls, ok, t)
  }

  ghost predicate Follows(s: Volume, ls: seq<Step>, ok: Hypothesis, t: Volume)
    requires Shape(s)
  {
    Run(s, ls, ok) && After(s, ls, ok) == t
  }

  lemma {:induction false} Extend(s: Volume, ls: seq<Step>, ok: Hypothesis, t: Volume, l: Step)
    requires Shape(s) && Follows(s, ls, ok, t) && Shape(t) && Enabled(t, l) && ok(t, l)
    ensures Follows(s, ls + [l], ok, Apply(t, l))
    decreases |ls|
  {
    var more := ls + [l];
    if ls == [] {
      assert more[0] == l && more[1..] == [];
      StepKeepsShape(s, l);
      assert Run(Apply(s, l), [], ok);
    } else {
      assert more[0] == ls[0] && more[1..] == ls[1..] + [l];
      StepKeepsShape(s, ls[0]);
      Extend(Apply(s, ls[0]), ls[1..], ok, t, l);
    }
  }

  lemma ReachesShape(s: Volume, t: Volume, ok: Hypothesis)
    requires Reaches(s, t, ok)
    ensures Shape(t)
  {
  }

  /** One more step of a run from s. */
  lemma Go(s: Volume, t: Volume, l: Step, ok: Hypothesis)
    requires Reaches(s, t, ok) && Shape(t) && Enabled(t, l) && ok(t, l)
    ensures Reaches(s, Apply(t, l), ok)
  {
    var ls :| Follows(s, ls, ok, t);
    Extend(s, ls, ok, t, l);
  }

  /** ok restricts nothing but the start of a rebuild and the end of a drain. */
  ghost predicate Lenient(ok: Hypothesis) {
    forall t: Volume, l: Step ::
      !(l.Rebuild? && (l.r.Start? || l.r.Drained?)) ==> ok(t, l)
  }

  /** Two members, one sector, all zero. */
  function Fresh(): Volume {
    Volume(Raid1(2, 1), [[0], [0]], [true, true], [Live, Live], {0, 1}, {0, 1}, map[], 0, [0, 0],
           None, Idle, 0, 0, [0])
  }

  lemma FreshReached(ok: Hypothesis)
    ensures Init(Fresh()) && Reaches(Fresh(), Fresh(), ok)
  {
    Raid1Sound(2, 1);
    InitShape(Fresh());
    assert Follows(Fresh(), [], ok, Fresh());
  }

  // ---------- short stretches of a run ----------

  lemma Same(s: Volume, t: Volume)
    requires s.geo == t.geo && s.media == t.media && s.present == t.present && s.st == t.st
    requires s.live == t.live && s.wr == t.wr && s.writers == t.writers && s.wgen == t.wgen
    requires s.count == t.count && s.window == t.window && s.thread == t.thread
    requires s.target == t.target && s.cursor == t.cursor && s.want == t.want
    ensures s == t
  {
  }

  /** Member 1 fails and its controller comes back stale. */
  lemma Park(ok: Hypothesis)
    requires Lenient(ok)
    ensures Reaches(Fresh(), Fresh().(st := [Live, NeedsResync], live := {0}, wr := {0}), ok)
  {
    FreshReached(ok);
    var s := Fresh();
    var t := Fresh().(st := [Live, Failed], live := {0}, wr := {0});
    Go(Fresh(), s, Member(1, Fail), ok);
    Same(Apply(s, Member(1, Fail)), t);
    ParkStale(t, ok);
  }

  lemma ParkStale(s: Volume, ok: Hypothesis)
    requires Lenient(ok) && Reaches(Fresh(), s, ok)
    requires s == Fresh().(st := [Live, Failed], live := {0}, wr := {0})
    ensures Reaches(Fresh(), Fresh().(st := [Live, NeedsResync], live := {0}, wr := {0}), ok)
  {
    ReachesShape(Fresh(), s, ok);
    var l := Member(1, Reset);
    Go(Fresh(), s, l, ok);
    Same(Apply(s, l), Fresh().(st := [Live, NeedsResync], live := {0}, wr := {0}));
  }

  /** A write of 5 to sector 0. */
  function W(mask: set<nat>, phase: Phase): Writer {
    Writer(0, [5], mask, phase, {}, {}, {})
  }

  lemma BeginWrite(o: Volume, s: Volume, ok: Hypothesis)
    requires Lenient(ok) && Reaches(o, s, ok)
    requires s.geo == Raid1(2, 1) && s.writers == map[] && 0 in s.wr
    ensures Reaches(o, s.(writers := map[7 := W(s.wr, Snapped)]), ok)
  {
    ReachesShape(o, s, ok);
    var l := Write(7, Begin(0, [5]));
    Go(o, s, l, ok);
    assert Touches(s.geo, 0, 1, 0) by { assert s.geo.col(0) == 0; }
    assert MaskFor(s.geo, s.wr, 0, 1) == s.wr;
    Same(Apply(s, l), s.(writers := map[7 := W(s.wr, Snapped)]));
  }

  lemma CountIn(o: Volume, s: Volume, mask: set<nat>, g: nat, ok: Hypothesis)
    requires Lenient(ok) && Reaches(o, s, ok)
    requires s.writers == map[7 := W(mask, Snapped)] && g == s.wgen % 2 && g < |s.count|
    ensures Reaches(o,
      s.(writers := map[7 := W(mask, Counted(g))], count := s.count[g := s.count[g] + 1]), ok)
  {
    ReadIn(o, s, mask, g, ok);
    Increment(o, s.(writers := map[7 := W(mask, GenRead(g))]), mask, g, ok,
              s.(writers := map[7 := W(mask, Counted(g))], count := s.count[g := s.count[g] + 1]));
  }

  lemma ReadIn(o: Volume, s: Volume, mask: set<nat>, g: nat, ok: Hypothesis)
    requires Lenient(ok) && Reaches(o, s, ok)
    requires s.writers == map[7 := W(mask, Snapped)] && g == s.wgen % 2
    ensures Reaches(o, s.(writers := map[7 := W(mask, GenRead(g))]), ok)
  {
    ReachesShape(o, s, ok);
    Go(o, s, Write(7, ReadGen), ok);
    MovedOn(s, ReadGen, W(mask, GenRead(g)), Apply(s, Write(7, ReadGen)));
  }

  /** A step of the one write that only changes its own record. */
  lemma MovedOn(s: Volume, l: WriteStep, w: Writer, t: Volume)
    requires Shape(s) && Enabled(s, Write(7, l)) && t == Apply(s, Write(7, l))
    requires s.writers.Keys == {7} && 7 in t.writers && t.writers[7] == w
    requires l.ReadGen? || l.Ack? || (l.Recheck? && w.phase.Rechecked?) || (l.CheckWindow? && w.phase.Admitted?)
    ensures t == s.(writers := map[7 := w])
  {
    assert t.writers == map[7 := w];
  }

  lemma Increment(o: Volume, s: Volume, mask: set<nat>, g: nat, ok: Hypothesis, t: Volume)
    requires Lenient(ok) && Reaches(o, s, ok)
    requires s.writers == map[7 := W(mask, GenRead(g))] && g < |s.count|
    requires t == s.(writers := map[7 := W(mask, Counted(g))], count := s.count[g := s.count[g] + 1])
    ensures Reaches(o, t, ok)
  {
    ReachesShape(o, s, ok);
    Go(o, s, Write(7, Count), ok);
    Incremented(s, mask, g, Apply(s, Write(7, Count)));
  }

  lemma Incremented(s: Volume, mask: set<nat>, g: nat, t: Volume)
    requires Shape(s) && Enabled(s, Write(7, Count)) && t == Apply(s, Write(7, Count))
    requires s.writers == map[7 := W(mask, GenRead(g))] && g < |s.count|
    ensures t == s.(writers := map[7 := W(mask, Counted(g))], count := s.count[g := s.count[g] + 1])
  {
    Same(t, s.(writers := map[7 := W(mask, Counted(g))], count := s.count[g := s.count[g] + 1]));
  }

  lemma PassGate(o: Volume, s: Volume, mask: set<nat>, g: nat, ok: Hypothesis)
    requires Lenient(ok) && Reaches(o, s, ok)
    requires s.writers == map[7 := W(mask, Counted(g))] && g == s.wgen % 2 && s.window == None
    ensures Reaches(o, s.(writers := map[7 := W(mask, Admitted(g))]), ok)
  {
    ReachesShape(o, s, ok);
    Go(o, s, Write(7, Recheck), ok);
    var t := s.(writers := map[7 := W(mask, Rechecked(g))]);
    MovedOn(s, Recheck, W(mask, Rechecked(g)), Apply(s, Write(7, Recheck)));
    PassWindow(o, t, mask, g, ok);
  }

  lemma PassWindow(o: Volume, s: Volume, mask: set<nat>, g: nat, ok: Hypothesis)
    requires Lenient(ok) && Reaches(o, s, ok)
    requires s.writers == map[7 := W(mask, Rechecked(g))] && s.window == None
    ensures Reaches(o, s.(writers := map[7 := W(mask, Admitted(g))]), ok)
  {
    ReachesShape(o, s, ok);
    Go(o, s, Write(7, CheckWindow), ok);
    MovedOn(s, CheckWindow, W(mask, Admitted(g)), Apply(s, Write(7, CheckWindow)));
  }

  lemma StartRebuild(s: Volume, ok: Hypothesis)
    requires Reaches(Fresh(), s, ok) && ok(s, Rebuild(Start(1)))
    requires s.geo == Raid1(2, 1) && s.st == [Live, NeedsResync] && s.present == [true, true]
    requires s.live == {0} && s.wr == {0} && s.thread == Idle
    ensures Reaches(Fresh(),
      s.(st := [Live, Resyncing], wr := {0, 1}, thread := Top, target := 1, cursor := 0), ok)
  {
    ReachesShape(Fresh(), s, ok);
    assert CanServe(s, 1, 0);
    Go(Fresh(), s, Rebuild(Start(1)), ok);
    Same(Apply(s, Rebuild(Start(1))),
         s.(st := [Live, Resyncing], wr := {0, 1}, thread := Top, target := 1, cursor := 0));
  }

  lemma ToDrain(o: Volume, s: Volume, ok: Hypothesis)
    requires Lenient(ok) && Reaches(o, s, ok)
    requires s.geo == Raid1(2, 1) && s.st == [Live, Resyncing] && s.present == [true, true]
    requires s.live == {0} && s.thread == Top && s.target == 1 && s.cursor == 0
    ensures Reaches(o,
      s.(wgen := s.wgen + 1, window := Some(0), thread := Draining(0, s.wgen % 2)), ok)
  {
    ReachesShape(o, s, ok);
    assert CanServe(s, 1, 0);
    Go(o, s, Rebuild(Pick), ok);
    var t := s.(window := Some(0), thread := Published(0));
    assert PickSurvivor(s, 1, 0) == Some(0);
    Same(Apply(s, Rebuild(Pick)), t);
    ReachesShape(o, t, ok);
    Go(o, t, Rebuild(Flip), ok);
    Same(Apply(t, Rebuild(Flip)),
         s.(wgen := s.wgen + 1, window := Some(0), thread := Draining(0, s.wgen % 2)));
  }

  lemma ReadChunk(o: Volume, s: Volume, v: Value, ok: Hypothesis)
    requires Lenient(ok) && Reaches(o, s, ok) && ok(s, Rebuild(Drained))
    requires s.geo == Raid1(2, 1) && s.cursor == 0 && |s.media| == 2 && s.media[0] == [v]
    requires s.thread.Draining? && s.thread.srv == 0 && s.thread.bucket < |s.count|
    requires s.count[s.thread.bucket] == 0
    ensures Reaches(o, s.(thread := Copying(0, [v], 0)), ok)
  {
    ReachesShape(o, s, ok);
    Go(o, s, Rebuild(Drained), ok);
    var t := s.(thread := Copying(0, [], 0));
    Same(Apply(s, Rebuild(Drained)), t);
    ReachesShape(o, t, ok);
    Go(o, t, Rebuild(CopyRead), ok);
    Same(Apply(t, Rebuild(CopyRead)), s.(thread := Copying(0, [v], 0)));
  }

  lemma WriteChunk(o: Volume, s: Volume, v: Value, a: seq<Value>, ok: Hypothesis)
    requires Lenient(ok) && Reaches(o, s, ok)
    requires s.geo == Raid1(2, 1) && s.cursor == 0 && s.target == 1 && |s.media| == 2 && s.media[0] == a
    requires s.thread == Copying(0, [v], 0)
    ensures Reaches(o, s.(media := [a, [v]], cursor := 1, thread := Top), ok)
  {
    ReachesShape(o, s, ok);
    assert s.media[1][0 := v] == [v] && s.media[1 := [v]] == [a, [v]];
    Go(o, s, Rebuild(CopyWrite), ok);
    var t := s.(media := [a, [v]], thread := Copying(0, [v], 1));
    Same(Apply(s, Rebuild(CopyWrite)), t);
    MoveOn(o, t, v, ok);
  }

  lemma MoveOn(o: Volume, s: Volume, v: Value, ok: Hypothesis)
    requires Lenient(ok) && Reaches(o, s, ok)
    requires s.geo == Raid1(2, 1) && s.cursor == 0 && s.thread == Copying(0, [v], 1)
    ensures Reaches(o, s.(cursor := 1, thread := Top), ok)
  {
    ReachesShape(o, s, ok);
    Go(o, s, Rebuild(Advance), ok);
    Same(Apply(s, Rebuild(Advance)), s.(cursor := 1, thread := Top));
  }

  lemma Promote(o: Volume, s: Volume, st0: MemberState, ok: Hypothesis)
    requires Lenient(ok) && Reaches(o, s, ok)
    requires s.geo == Raid1(2, 1) && s.cursor == 1 && s.target == 1 && s.st == [st0, Resyncing]
    requires s.thread == Top && 1 in s.wr
    ensures Reaches(o,
      s.(st := [st0, Live], live := s.live + {1}, window := None, thread := Idle), ok)
  {
    ReachesShape(o, s, ok);
    Go(o, s, Rebuild(Pick), ok);
    var t := s.(thread := Ending(true), window := None);
    Same(Apply(s, Rebuild(Pick)), t);
    ReachesShape(o, t, ok);
    Go(o, t, Rebuild(Conclude), ok);
    Same(Apply(t, Rebuild(Conclude)),
         s.(st := [st0, Live], live := s.live + {1}, window := None, thread := Idle));
  }

  lemma CopyAndPromote(o: Volume, s: Volume, v: Value, a: seq<Value>, st0: MemberState, ok: Hypothesis)
    requires Lenient(ok) && Reaches(o, s, ok)
    requires s.geo == Raid1(2, 1) && s.cursor == 0 && s.target == 1 && |s.media| == 2 && s.media[0] == a
    requires s.thread == Copying(0, [v], 0) && s.st == [st0, Resyncing] && 1 in s.wr
    ensures Reaches(o, Promoted(s, v, a, st0), ok)
  {
    WriteChunk(o, s, v, a, ok);
    Promote(o, s.(media := [a, [v]], cursor := 1, thread := Top), st0, ok);
  }

  function Promoted(s: Volume, v: Value, a: seq<Value>, st0: MemberState): Volume {
    s.(media := [a, [v]], cursor := 1, st := [st0, Live], live := s.live + {1},
       window := None, thread := Idle)
  }

  lemma Admit(o: Volume, s: Volume, mask: set<nat>, g: nat, ok: Hypothesis)
    requires Lenient(ok) && Reaches(o, s, ok)
    requires s.writers == map[7 := W(mask, Snapped)] && g == s.wgen % 2 && g < |s.count| && s.window == None
    ensures Reaches(o,
      s.(writers := map[7 := W(mask, Admitted(g))], count := s.count[g := s.count[g] + 1]), ok)
  {
    CountIn(o, s, mask, g, ok);
    PassGate(o, s.(writers := map[7 := W(mask, Counted(g))], count := s.count[g := s.count[g] + 1]), mask, g, ok);
  }

  /** Member m stores the sector and answers OK. */
  lemma Store(o: Volume, s: Volume, w: Writer, m: nat, ok: Hypothesis)
    requires Lenient(ok) && Reaches(o, s, ok)
    requires s.geo == Raid1(2, 1) && s.writers == map[7 := w] && w.pos == 0 && w.data == [5]
    requires w.phase.Admitted? && m in w.mask && m !in w.acked && m < 2 && |s.media| == 2
    ensures Reaches(o,
      s.(media := s.media[m := [5]],
         writers := map[7 := w.(landed := w.landed + {(m, 0)}, acked := w.acked + {m})]), ok)
  {
    ReachesShape(o, s, ok);
    LandMoves(s, w, m);
    Go(o, s, Write(7, Land(m, 0)), ok);
    var u := w.(landed := w.landed + {(m, 0)});
    Answer(o, s.(media := s.media[m := [5]], writers := map[7 := u]), u, m, true, ok);
  }

  lemma LandMoves(s: Volume, w: Writer, m: nat)
    requires Shape(s) && s.geo == Raid1(2, 1) && s.writers == map[7 := w] && w.pos == 0 && w.data == [5]
    requires w.phase.Admitted? && m in w.mask && m !in w.acked && m < 2 && |s.media| == 2
    ensures WriteEnabled(s, 7, Land(m, 0))
    ensures ApplyWrite(s, 7, Land(m, 0))
         == s.(media := s.media[m := [5]], writers := map[7 := w.(landed := w.landed + {(m, 0)})])
  {
    assert s.geo.at(0) == 0 && s.media[m][0 := 5] == [5];
    Same(ApplyWrite(s, 7, Land(m, 0)),
         s.(media := s.media[m := [5]], writers := map[7 := w.(landed := w.landed + {(m, 0)})]));
  }

  lemma AnswerEnabled(s: Volume, w: Writer, m: nat, good: bool)
    requires s.geo == Raid1(2, 1) && 7 in s.writers && s.writers[7] == w && w.pos == 0 && w.data == [5]
    requires w.phase.Admitted? && m in w.mask && m !in w.acked && (good ==> (m, 0) in w.landed)
    ensures WriteEnabled(s, 7, Ack(m, good))
  {
  }

  lemma Answer(o: Volume, s: Volume, w: Writer, m: nat, good: bool, ok: Hypothesis)
    requires Lenient(ok) && Reaches(o, s, ok)
    requires s.geo == Raid1(2, 1) && s.writers == map[7 := w] && w.pos == 0 && w.data == [5]
    requires w.phase.Admitted? && m in w.mask && m !in w.acked && (good ==> (m, 0) in w.landed)
    ensures Reaches(o,
      s.(writers := map[7 := w.(acked := w.acked + {m}, err := if good then w.err else w.err + {m})]), ok)
  {
    ReachesShape(o, s, ok);
    assert s.writers[7] == w;
    AnswerEnabled(s, w, m, good);
    Go(o, s, Write(7, Ack(m, good)), ok);
    AnswerMoves(s, w, m, good);
  }

  lemma AnswerMoves(s: Volume, w: Writer, m: nat, good: bool)
    requires Shape(s) && s.writers == map[7 := w] && WriteEnabled(s, 7, Ack(m, good))
    ensures ApplyWrite(s, 7, Ack(m, good))
         == s.(writers := map[7 := w.(acked := w.acked + {m}, err := if good then w.err else w.err + {m})])
  {
    MovedOn(s, Ack(m, good), w.(acked := w.acked + {m}, err := if good then w.err else w.err + {m}),
            Apply(s, Write(7, Ack(m, good))));
  }

  lemma SettleWrite(o: Volume, s: Volume, w: Writer, ok: Hypothesis)
    requires Lenient(ok) && Reaches(o, s, ok)
    requires s.writers == map[7 := w] && w.pos == 0 && w.data == [5] && |s.want| == 1
    requires w.phase.Admitted? && w.acked == w.mask && w.phase.g < |s.count|
    ensures Reaches(o, AfterSettle(s, w), ok)
  {
    ReachesShape(o, s, ok);
    assert Overwrite(s.want, w) == [5];
    Go(o, s, Write(7, Settle), ok);
    Same(Apply(s, Write(7, Settle)), AfterSettle(s, w));
  }

  lemma FinishWrite(o: Volume, s: Volume, w: Writer, ok: Hypothesis)
    requires Lenient(ok) && Reaches(o, s, ok)
    requires s.writers == map[7 := w] && w.phase.Settled?
    ensures Reaches(o, MarkFailed(s, w.err).(writers := map[]), ok)
  {
    ReachesShape(o, s, ok);
    Go(o, s, Write(7, Finish), ok);
    Same(Apply(s, Write(7, Finish)), MarkFailed(s, w.err).(writers := map[]));
  }

  /** The state after an admitted write that everyone answered has ended. */
  function Ended(s: Volume, w: Writer): Volume
    requires w.phase.Admitted? && w.phase.g < |s.count|
  {
    MarkFailed(AfterSettle(s, w), w.err).(writers := map[])
  }

  function AfterSettle(s: Volume, w: Writer): Volume
    requires w.phase.Admitted? && w.phase.g < |s.count|
  {
    s.(writers := map[7 := w.(phase := Settled)], want := [5],
       count := s.count[w.phase.g := s.count[w.phase.g] - 1])
  }

  lemma EndWrite(o: Volume, s: Volume, w: Writer, ok: Hypothesis)
    requires Lenient(ok) && Reaches(o, s, ok)
    requires s.writers == map[7 := w] && w.pos == 0 && w.data == [5] && |s.want| == 1
    requires w.phase.Admitted? && w.acked == w.mask && w.phase.g < |s.count|
    ensures Reaches(o, Ended(s, w), ok)
  {
    SettleWrite(o, s, w, ok);
    FinishWrite(o, AfterSettle(s, w), w.(phase := Settled), ok);
  }

  // ---------- the four races ----------

  /** A live member whose sector differs from the write that was acknowledged. */
  ghost predicate LostWrite(t: Volume) {
    t.writers == map[] && t.want == [5] && exists m :: m in t.live && m < |t.media| && t.media[m] == [0]
  }

  ghost predicate AllButGate(s: Volume, l: Step) {
    Shape(s) ==>
      && (l.Rebuild? && l.r.Start? ==> StaleBucketEmpty(s))
      && (l.Rebuild? && l.r.Drained? && Enabled(s, l) ==> SurvivorTrusted(s))
  }

  /** A dispatch snapshots the write mask, the rebuild starts and finishes, and
    * only then does the dispatch pass the gate: the new LIVE copy misses it. */
  lemma StraddlingDispatch()
    ensures exists t :: Reaches(Fresh(), t, AllButGate) && LostWrite(t)
  {
    var ok := AllButGate;
    Park(ok);
    var s := Fresh().(st := [Live, NeedsResync], live := {0}, wr := {0});
    BeginWrite(Fresh(), s, ok);
    s := s.(writers := map[7 := W({0}, Snapped)]);
    StartRebuild(s, ok);
    s := s.(st := [Live, Resyncing], wr := {0, 1}, thread := Top, target := 1, cursor := 0);
    ToDrain(Fresh(), s, ok);
    s := s.(wgen := 1, window := Some(0), thread := Draining(0, 0));
    StraddlingCopy(s);
  }

  lemma StraddlingCopy(s: Volume)
    requires Reaches(Fresh(), s, AllButGate)
    requires s == Fresh().(st := [Live, Resyncing], live := {0}, wr := {0, 1},
      writers := map[7 := W({0}, Snapped)], wgen := 1, window := Some(0), thread := Draining(0, 0),
      target := 1)
    ensures exists t :: Reaches(Fresh(), t, AllButGate) && LostWrite(t)
  {
    var ok := AllButGate;
    ReadChunk(Fresh(), s, 0, ok);
    var t := s.(thread := Copying(0, [0], 0));
    CopyAndPromote(Fresh(), t, 0, [0], Live, ok);
    t := Promoted(t, 0, [0], Live);
    Admit(Fresh(), t, {0}, 1, ok);
    StraddlingTail(t.(writers := map[7 := W({0}, Admitted(1))], count := t.count[1 := t.count[1] + 1]));
  }

  lemma StraddlingTail(s: Volume)
    requires Reaches(Fresh(), s, AllButGate) && s.geo == Raid1(2, 1)
    requires s.media == [[0], [0]] && |s.count| == 2 && |s.want| == 1
    requires s.writers == map[7 := W({0}, Admitted(1))] && 1 in s.live
    ensures exists t :: Reaches(Fresh(), t, AllButGate) && LostWrite(t)
  {
    var ok := AllButGate;
    var w := W({0}, Admitted(1));
    Store(Fresh(), s, w, 0, ok);
    w := w.(landed := w.landed + {(0, 0)}, acked := w.acked + {0});
    var t := s.(media := s.media[0 := [5]], writers := map[7 := w]);
    EndWrite(Fresh(), t, w, ok);
    assert 1 in Ended(t, w).live && Ended(t, w).media[1] == [0];
  }

  // ---------- the survivor fails under the copy ----------

  /** A write that both members still have to answer, counted before the window
    * was published; the rebuild waits for it. */
  function OverlapState(): Volume {
    Fresh().(st := [Live, Resyncing], live := {0}, wr := {0, 1},
      writers := map[7 := W({0, 1}, Admitted(0))], count := [1, 0], thread := Top, target := 1)
  }

  lemma ReachOverlap(ok: Hypothesis)
    requires Lenient(ok)
    requires forall t :: Shape(t) && StaleBucketEmpty(t) && NoneInGate(t) ==> ok(t, Rebuild(Start(1)))
    ensures Reaches(Fresh(), OverlapState(), ok)
  {
    Park(ok);
    var s := Fresh().(st := [Live, NeedsResync], live := {0}, wr := {0});
    ReachesShape(Fresh(), s, ok);
    StartRebuild(s, ok);
    s := s.(st := [Live, Resyncing], wr := {0, 1}, thread := Top, target := 1, cursor := 0);
    OverlapTail(s, ok);
  }

  lemma OverlapTail(s: Volume, ok: Hypothesis)
    requires Lenient(ok) && Reaches(Fresh(), s, ok)
    requires s == Fresh().(st := [Live, Resyncing], live := {0}, wr := {0, 1}, thread := Top, target := 1)
    ensures Reaches(Fresh(), OverlapState(), ok)
  {
    BeginWrite(Fresh(), s, ok);
    var t := s.(writers := map[7 := W({0, 1}, Snapped)]);
    Admit(Fresh(), t, {0, 1}, 0, ok);
    Same(t.(writers := map[7 := W({0, 1}, Admitted(0))], count := t.count[0 := t.count[0] + 1]), OverlapState());
  }

  /** The rebuild drains; the target stores the write, the survivor answers with
    * an error. */
  function TornWriter(): Writer {
    Writer(0, [5], {0, 1}, Admitted(0), {(1, 0)}, {0, 1}, {0})
  }

  function TornState(): Volume {
    OverlapState().(wgen := 1, window := Some(0), thread := Draining(0, 0), media := [[0], [5]],
      writers := map[7 := TornWriter()])
  }

  lemma ReachTorn(ok: Hypothesis)
    requires Lenient(ok)
    requires forall t :: Shape(t) && StaleBucketEmpty(t) && NoneInGate(t) ==> ok(t, Rebuild(Start(1)))
    ensures Reaches(Fresh(), TornState(), ok)
  {
    ReachOverlap(ok);
    ToDrain(Fresh(), OverlapState(), ok);
    TornTail(OverlapState().(wgen := 1, window := Some(0), thread := Draining(0, 0)), ok);
  }

  lemma TornTail(s: Volume, ok: Hypothesis)
    requires Lenient(ok) && Reaches(Fresh(), s, ok)
    requires s == OverlapState().(wgen := 1, window := Some(0), thread := Draining(0, 0))
    ensures Reaches(Fresh(), TornState(), ok)
  {
    var w := W({0, 1}, Admitted(0));
    Store(Fresh(), s, w, 1, ok);
    w := w.(landed := w.landed + {(1, 0)}, acked := w.acked + {1});
    var t := s.(media := s.media[1 := [5]], writers := map[7 := w]);
    TornAnswer(t, w, ok);
  }

  lemma TornAnswer(s: Volume, w: Writer, ok: Hypothesis)
    requires Lenient(ok) && Reaches(Fresh(), s, ok)
    requires w == Writer(0, [5], {0, 1}, Admitted(0), {(1, 0)}, {1}, {})
    requires s == OverlapState().(wgen := 1, window := Some(0), thread := Draining(0, 0),
      media := [[0], [5]], writers := map[7 := w])
    ensures Reaches(Fresh(), TornState(), ok)
  {
    Answer(Fresh(), s, w, 0, false, ok);
    assert w.(acked := w.acked + {0}, err := w.err + {0}) == TornWriter();
  }

  ghost predicate AllButLiveSurvivor(s: Volume, l: Step) {
    Shape(s) ==>
      && (l.Rebuild? && l.r.Start? ==> StaleBucketEmpty(s) && NoneInGate(s))
      && (l.Rebuild? && l.r.Drained? && Enabled(s, l) ==> ErrorsReported(s))
  }

  ghost predicate ErrorsReported(s: Volume)
    requires s.thread.Draining? && s.cursor <= s.geo.total
  {
    forall id, x ::
      id in s.writers && s.writers[id].phase.Settled? && s.writers[id].Covers(x) && InChunk(s, x) ==>
        s.thread.srv !in s.writers[id].err
  }

  /** The write ends OK on the target alone and fails the survivor, after the
    * survivor was picked; the last chunk is copied from it all the same and the
    * target is promoted with the old data. */
  lemma SurvivorFailsAfterPick()
    ensures exists t :: Reaches(Fresh(), t, AllButLiveSurvivor) && LostWrite(t)
  {
    var ok := AllButLiveSurvivor;
    ReachTorn(ok);
    EndWrite(Fresh(), TornState(), TornWriter(), ok);
    SurvivorFailsTail(Ended(TornState(), TornWriter()));
  }

  lemma SurvivorFailsTail(s: Volume)
    requires Reaches(Fresh(), s, AllButLiveSurvivor) && s == Ended(TornState(), TornWriter())
    ensures exists t :: Reaches(Fresh(), t, AllButLiveSurvivor) && LostWrite(t)
  {
    var ok := AllButLiveSurvivor;
    assert s.st == [Failed, Resyncing] && s.live == {} && s.wr == {1};
    ReadChunk(Fresh(), s, 0, ok);
    var t := s.(thread := Copying(0, [0], 0));
    CopyAndPromote(Fresh(), t, 0, [0], Failed, ok);
    assert 1 in Promoted(t, 0, [0], Failed).live;
  }

  ghost predicate AllButReportedErrors(s: Volume, l: Step) {
    Shape(s) ==>
      && (l.Rebuild? && l.r.Start? ==> StaleBucketEmpty(s) && NoneInGate(s))
      && (l.Rebuild? && l.r.Drained? && Enabled(s, l) ==> s.thread.srv in s.live)
  }

  /** The same loss with a survivor that is still LIVE when the drain ends: the
    * count goes down (rc_volume_unmap_request_sg) before the error is reported
    * (rc_volume_finish_status). */
  lemma ErrorReportedAfterDrain()
    ensures exists t :: Reaches(Fresh(), t, AllButReportedErrors) && LostWrite(t)
  {
    var ok := AllButReportedErrors;
    ReachTorn(ok);
    SettleWrite(Fresh(), TornState(), TornWriter(), ok);
    var s := AfterSettle(TornState(), TornWriter());
    ReadChunk(Fresh(), s, 0, ok);
    s := s.(thread := Copying(0, [0], 0));
    CopyAndPromote(Fresh(), s, 0, [0], Live, ok);
    s := Promoted(s, 0, [0], Live);
    FinishWrite(Fresh(), s, TornWriter().(phase := Settled), ok);
    var t := MarkFailed(s, TornWriter().err).(writers := map[]);
    assert 1 in t.live && t.media[1] == [0];
  }

  // ---------- a drain that was interrupted ----------

  ghost predicate AllButStaleBucket(s: Volume, l: Step) {
    Shape(s) ==>
      && (l.Rebuild? && l.r.Start? ==> NoneInGate(s))
      && (l.Rebuild? && l.r.Drained? && Enabled(s, l) ==> SurvivorTrusted(s))
  }

  /** A rebuild stopped in its drain and started again before the queue froze:
    * the second drain waits on the other bucket, and the copy overwrites a write
    * that was in flight all along. */
  lemma RestartAfterInterruptedDrain()
    ensures exists t :: Reaches(Fresh(), t, AllButStaleBucket) && LostWrite(t)
  {
    var ok := AllButStaleBucket;
    ReachOverlap(ok);
    var s := OverlapState();
    ToDrain(Fresh(), s, ok);
    s := s.(wgen := 1, window := Some(0), thread := Draining(0, 0));
    StopRebuild(s, ok);
    s := s.(st := [Live, NeedsResync], wr := {0}, window := None, thread := Idle);
    RestartMiddle(s);
  }

  lemma RestartMiddle(s: Volume)
    requires Reaches(Fresh(), s, AllButStaleBucket)
    requires s == OverlapState().(st := [Live, NeedsResync], wr := {0}, wgen := 1, window := None, thread := Idle)
    ensures exists t :: Reaches(Fresh(), t, AllButStaleBucket) && LostWrite(t)
  {
    var ok := AllButStaleBucket;
    StartRebuild(s, ok);
    var t := s.(st := [Live, Resyncing], wr := {0, 1}, thread := Top, target := 1, cursor := 0);
    RestartDrain(t);
  }

  lemma RestartDrain(s: Volume)
    requires Reaches(Fresh(), s, AllButStaleBucket)
    requires s == OverlapState().(wgen := 1, window := None)
    ensures exists t :: Reaches(Fresh(), t, AllButStaleBucket) && LostWrite(t)
  {
    ToDrain(Fresh(), s, AllButStaleBucket);
    RestartCopy(s.(wgen := 2, window := Some(0), thread := Draining(0, 1)));
  }

  lemma RestartCopy(t: Volume)
    requires Reaches(Fresh(), t, AllButStaleBucket)
    requires t == OverlapState().(wgen := 2, window := Some(0), thread := Draining(0, 1))
    ensures exists u :: Reaches(Fresh(), u, AllButStaleBucket) && LostWrite(u)
  {
    ReadChunk(Fresh(), t, 0, AllButStaleBucket);
    RestartTail(t.(thread := Copying(0, [0], 0)));
  }

  lemma StopRebuild(s: Volume, ok: Hypothesis)
    requires Lenient(ok) && Reaches(Fresh(), s, ok)
    requires s.thread.Draining? && s.target == 1 && s.st == [Live, Resyncing] && s.live == {0} && s.wr == {0, 1}
    ensures Reaches(Fresh(), s.(st := [Live, NeedsResync], wr := {0}, window := None, thread := Idle), ok)
  {
    ReachesShape(Fresh(), s, ok);
    Go(Fresh(), s, Rebuild(Stop), ok);
    var t := s.(thread := Ending(false), window := None);
    Same(Apply(s, Rebuild(Stop)), t);
    ReachesShape(Fresh(), t, ok);
    Go(Fresh(), t, Rebuild(Conclude), ok);
    Same(Apply(t, Rebuild(Conclude)), s.(st := [Live, NeedsResync], wr := {0}, window := None, thread := Idle));
  }

  lemma RestartTail(s: Volume)
    requires Reaches(Fresh(), s, AllButStaleBucket)
    requires s == OverlapState().(wgen := 2, window := Some(0), thread := Copying(0, [0], 0))
    ensures exists t :: Reaches(Fresh(), t, AllButStaleBucket) && LostWrite(t)
  {
    var ok := AllButStaleBucket;
    var w := W({0, 1}, Admitted(0));
    Store(Fresh(), s, w, 0, ok);
    w := w.(landed := w.landed + {(0, 0)}, acked := w.acked + {0});
    var t := s.(media := s.media[0 := [5]], writers := map[7 := w]);
    Store(Fresh(), t, w, 1, ok);
    w := w.(landed := w.landed + {(1, 0)}, acked := w.acked + {1});
    t := t.(media := t.media[1 := [5]], writers := map[7 := w]);
    assert w.acked == {0, 1};
    RestartEnd(t, w);
  }

  lemma RestartEnd(s: Volume, w: Writer)
    requires Reaches(Fresh(), s, AllButStaleBucket)
    requires s.geo == Raid1(2, 1) && s.cursor == 0 && s.target == 1 && |s.media| == 2 && s.media[0] == [5]
    requires s.thread == Copying(0, [0], 0) && s.st == [Live, Resyncing] && 1 in s.wr
    requires s.writers == map[7 := w] && w.pos == 0 && w.data == [5] && |s.want| == 1
    requires w.phase == Admitted(0) && w.acked == w.mask && w.err == {} && |s.count| == 2
    ensures exists t :: Reaches(Fresh(), t, AllButStaleBucket) && LostWrite(t)
  {
    var ok := AllButStaleBucket;
    CopyAndPromote(Fresh(), s, 0, [5], Live, ok);
    var t := Promoted(s, 0, [5], Live);
    EndWrite(Fresh(), t, w, ok);
    assert 1 in Ended(t, w).live && Ended(t, w).media[1] == [0];
  }
}
