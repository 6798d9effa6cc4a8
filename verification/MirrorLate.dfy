/** A copy WRITE that timed out is only forgotten by the driver: rc_nvme_io_cmd_sync
  * disarms its handshake and the copy loop takes the chunk again, but the command stays
  * with the controller.  The machine of Mirror with such commands, whose sectors reach
  * the media at any later moment or never. */
module MirrorLate {
  import opened Common
  import opened Mirror
  import opened MirrorShape
  import opened MirrorExclusion
  import opened MirrorData
  import opened MirrorSafety
  import R = MirrorRaces

  /** One sector of a forgotten command: it may still land on member m. */
  datatype Stray = Stray(m: nat, at: nat, data: Value)

  datatype Bus = Bus(v: Volume, strays: set<Stray>)

  datatype BusStep =
    | Main(l: Step)
    | TimesOut
    | Lands(c: Stray)

  /** The command that writes the buffer to the target. */
  function Command(v: Volume): set<Stray>
    requires v.thread.Copying?
  {
    set j | 0 <= j < |v.thread.buf| :: Stray(v.target, v.cursor + j, v.thread.buf[j])
  }

  ghost predicate BusEnabled(b: Bus, d: BusStep)
    requires Shape(b.v)
  {
    match d
    case Main(l) => Enabled(b.v, l)
    case TimesOut => b.v.thread.Copying? && |b.v.thread.buf| == ChunkLen(b.v)
    case Lands(c) => c in b.strays && c.m < |b.v.media| && c.at < |b.v.media[c.m]|
  }

  function Landed(v: Volume, c: Stray): Volume
    requires c.m < |v.media| && c.at < |v.media[c.m]|
  {
    v.(media := v.media[c.m := v.media[c.m][c.at := c.data]])
  }

  function BusApply(b: Bus, d: BusStep): Bus
    requires Shape(b.v) && BusEnabled(b, d)
  {
    match d
    case Main(l) => b.(v := Apply(b.v, l))
    case TimesOut => Bus(ApplyRebuild(b.v, Retry), b.strays + Command(b.v))
    case Lands(c) => Bus(Landed(b.v, c), b.strays - {c})
  }

  /** The sector lands while its chunk is being copied once more, before that copy has
    * come to it: the window is still where it was. */
  predicate InTime(v: Volume, c: Stray)
    requires v.cursor <= v.geo.total
  {
    v.thread.Copying? && c.m == v.target && v.cursor + v.thread.k <= c.at < v.cursor + ChunkLen(v)
  }

  ghost predicate Allowed(b: Bus, d: BusStep, inTime: bool)
    requires Shape(b.v)
  {
    match d
    case Main(l) => Careful(b.v, l)
    case TimesOut => true
    case Lands(c) => inTime ==> InTime(b.v, c)
  }

  /** The steps ds lead from b to e, every hypothesis of Careful kept. */
  ghost predicate Leads(b: Bus, ds: seq<BusStep>, e: Bus, inTime: bool)
    decreases |ds|
  {
    if ds == [] then b == e
    else
      && Shape(b.v) && BusEnabled(b, ds[0]) && Allowed(b, ds[0], inTime)
      && Leads(BusApply(b, ds[0]), ds[1..], e, inTime)
  }

  // ---------- in time, a late landing does no harm ----------

  /** The copy never reads the member it writes. */
  predicate TwoMembers(v: Volume) {
    v.thread.HasSurvivor() ==> v.thread.srv != v.target
  }

  lemma StepKeepsTwo(v: Volume, l: Step)
    requires Shape(v) && TwoMembers(v) && Enabled(v, l)
    ensures TwoMembers(Apply(v, l))
  {
    match l
    case Write(id, w) => WriteKeepsRest(v, id, w);
    case Member(m, e) =>
    case Rebuild(r) =>
  }

  lemma LandedShape(v: Volume, c: Stray)
    requires Shape(v) && c.m < |v.media| && c.at < |v.media[c.m]|
    ensures Shape(Landed(v, c))
  {
    WritersStay(v, Landed(v, c));
  }

  /** No write in flight is on the sector: it would be on the chunk. */
  lemma NobodyThere(v: Volume, c: Stray, id: nat, x: nat)
    requires Shape(v) && GenOk(v) && InTime(v, c)
    requires id in v.writers && v.writers[id].phase.Admitted? && v.writers[id].Covers(x)
    ensures v.geo.col(x) != v.geo.colOf(c.m) || v.geo.at(x) != c.at
  {
    GenQuiet(v);
    ChunkSectors(v);
    var j := c.at - v.cursor;
    assert ChunkAt(v, j) && InChunk(v, ChunkStart(v) + j);
    assert WriterOk(v, v.writers[id]);
    assert x != ChunkStart(v) + j;
    Apart(v.geo, x, ChunkStart(v) + j);
  }

  lemma LandedKeepsCopies(v: Volume, c: Stray)
    requires Shape(v) && CopiesOk(v) && InTime(v, c) && c.at < |v.media[c.m]| && Shape(Landed(v, c))
    ensures CopiesOk(Landed(v, c))
  {
    var t := Landed(v, c);
    forall m, x | 0 <= m < t.geo.members && 0 <= x < t.geo.capacity ensures CopyOk(t, m, x) {
      assert CopyOk(v, m, x);
      if Current(t, m, t.geo.at(x)) && Quiet(t, m, x) {
        assert Quiet(v, m, x);
        assert m != v.target || v.geo.at(x) < v.cursor;
      }
    }
  }

  lemma LandedKeepsChunk(v: Volume, c: Stray)
    requires Shape(v) && ChunkOk(v) && TwoMembers(v) && InTime(v, c) && c.at < |v.media[c.m]| && Shape(Landed(v, c))
    ensures ChunkOk(Landed(v, c))
  {
    var t := Landed(v, c);
    forall x | 0 <= x < t.geo.capacity && InChunk(t, x) ensures ChunkSectorOk(t, x) {
      assert InChunk(v, x) && ChunkSectorOk(v, x);
    }
  }

  lemma LandedKeepsInv(v: Volume, c: Stray)
    requires Inv(v) && TwoMembers(v) && InTime(v, c) && c.m < |v.media| && c.at < |v.media[c.m]|
    ensures Inv(Landed(v, c)) && TwoMembers(Landed(v, c))
  {
    var t := Landed(v, c);
    LandedShape(v, c);
    forall id, x | id in v.writers && v.writers[id].phase.Admitted? && v.writers[id].Covers(x)
      ensures v.geo.col(x) != v.geo.colOf(c.m) || v.geo.at(x) != c.at
    {
      NobodyThere(v, c, id, x);
    }
    MediaChange(v, t, c.m, c.at);
    LandedKeepsCopies(v, c);
    LandedKeepsChunk(v, c);
    LandedKeepsRest(v, t);
  }

  /** What does not look at the media. */
  lemma LandedKeepsRest(v: Volume, t: Volume)
    requires Inv(v) && Shape(t) && t == v.(media := t.media)
    ensures GenOk(t) && MasksOk(t) && SettledOk(t)
  {
    forall id | id in t.writers ensures WriterGen(t, t.writers[id]) && WantHas(t.want, t.writers[id]) {
      assert WriterGen(v, v.writers[id]) && WantHas(v.want, v.writers[id]);
    }
    forall id, m | id in t.writers && 0 <= m < t.geo.members ensures MaskOk(t, t.writers[id], m) {
      assert MaskOk(v, v.writers[id], m);
    }
  }

  lemma {:induction false} InTimeKeepsInv(b: Bus, ds: seq<BusStep>, e: Bus)
    requires Inv(b.v) && TwoMembers(b.v) && Leads(b, ds, e, true)
    ensures Inv(e.v)
    decreases |ds|
  {
    if ds != [] {
      match ds[0] {
        case Main(l) =>
          StepKeepsInv(b.v, l);
          StepKeepsTwo(b.v, l);
        case TimesOut =>
          StepKeepsInv(b.v, Rebuild(Retry));
          StepKeepsTwo(b.v, Rebuild(Retry));
        case Lands(c) => LandedKeepsInv(b.v, c);
      }
      InTimeKeepsInv(BusApply(b, ds[0]), ds[1..], e);
    }
  }

  /** As LiveCopiesHoldLastWrite, with copy commands that time out: as long as what they
    * left behind lands in time or never. */
  lemma InTimeCopiesHoldLastWrite(s: Volume, ds: seq<BusStep>, e: Bus, m: nat, x: nat)
    requires Init(s) && Shape(s) && Leads(Bus(s, {}), ds, e, true)
    ensures
      var t := e.v;
      m in t.live && x < t.geo.capacity && t.geo.col(x) == t.geo.colOf(m) && NoWriter(t, x) ==>
        m < |t.media| && t.geo.at(x) < |t.media[m]| && x < |t.want| && t.media[m][t.geo.at(x)] == t.want[x]
  {
    InitData(s);
    InTimeKeepsInv(Bus(s, {}), ds, e);
    var t := e.v;
    if m in t.live && x < t.geo.capacity && t.geo.col(x) == t.geo.colOf(m) && NoWriter(t, x) {
      assert CopyOk(t, m, x) && Quiet(t, m, x);
    }
  }

  // ---------- too late, it does ----------

  function Mains(ls: seq<Step>): (ds: seq<BusStep>)
    ensures |ds| == |ls| && forall i :: 0 <= i < |ls| ==> ds[i] == Main(ls[i])
  {
    seq(|ls|, i requires 0 <= i < |ls| => Main(ls[i]))
  }

  lemma {:induction false} Lifts(s: Volume, ls: seq<Step>, strays: set<Stray>)
    requires Shape(s) && Run(s, ls, CarefulStep)
    ensures Leads(Bus(s, strays), Mains(ls), Bus(After(s, ls, CarefulStep), strays), false)
    decreases |ls|
  {
    if ls != [] {
      StepKeepsShape(s, ls[0]);
      Lifts(Apply(s, ls[0]), ls[1..], strays);
      assert Mains(ls)[1..] == Mains(ls[1..]);
    }
  }

  lemma {:induction false} Joins(b: Bus, ds: seq<BusStep>, c: Bus, more: seq<BusStep>, e: Bus)
    requires Leads(b, ds, c, false) && Leads(c, more, e, false)
    ensures Leads(b, ds + more, e, false)
    decreases |ds|
  {
    if ds == [] {
      assert ds + more == more;
    } else {
      Joins(BusApply(b, ds[0]), ds[1..], c, more, e);
      assert (ds + more)[0] == ds[0] && (ds + more)[1..] == ds[1..] + more;
    }
  }

  ghost predicate BusReaches(b: Bus, e: Bus) {
    exists ds :: Leads(b, ds, e, false)
  }

  lemma RunsOn(b: Bus, s: Volume, t: Volume, strays: set<Stray>)
    requires BusReaches(b, Bus(s, strays)) && R.Reaches(s, t, CarefulStep)
    ensures BusReaches(b, Bus(t, strays))
  {
    var ds :| Leads(b, ds, Bus(s, strays), false);
    var ls :| R.Follows(s, ls, CarefulStep, t);
    Lifts(s, ls, strays);
    Joins(b, ds, Bus(s, strays), Mains(ls), Bus(t, strays));
  }

  lemma OneStep(b: Bus, c: Bus, d: BusStep, e: Bus)
    requires BusReaches(b, c) && Shape(c.v) && BusEnabled(c, d) && Allowed(c, d, false) && e == BusApply(c, d)
    ensures BusReaches(b, e)
  {
    var ds :| Leads(b, ds, c, false);
    assert Leads(e, [d][1..], e, false);
    assert Leads(c, [d], e, false);
    Joins(b, ds, c, [d], e);
  }

  /** The rebuild of member 1 has read its sector and sends it. */
  function Sending(): Volume {
    R.Fresh().(st := [Live, Resyncing], live := {0}, wr := {0, 1}, wgen := 1, window := Some(0),
               thread := Copying(0, [0], 0), target := 1)
  }

  lemma CarefulIsLenient()
    ensures R.Lenient(CarefulStep)
  {
  }

  lemma SendingReached(ok: R.Hypothesis)
    requires R.Lenient(ok)
    requires forall t: Volume, m :: t.writers == map[] && t.count == [0, 0] ==> ok(t, Rebuild(Start(m)))
    requires forall t: Volume ::
      t.writers == map[] && t.live == {0} && t.thread == Draining(0, 0) ==> ok(t, Rebuild(Drained))
    ensures R.Reaches(R.Fresh(), Sending(), ok)
  {
    R.Park(ok);
    var s := R.Fresh().(st := [Live, NeedsResync], live := {0}, wr := {0});
    R.StartRebuild(s, ok);
    SendingDrains(s.(st := [Live, Resyncing], wr := {0, 1}, thread := Top, target := 1, cursor := 0), ok);
  }

  lemma SendingDrains(s: Volume, ok: R.Hypothesis)
    requires R.Lenient(ok) && R.Reaches(R.Fresh(), s, ok)
    requires s == R.Fresh().(st := [Live, Resyncing], live := {0}, wr := {0, 1}, thread := Top, target := 1)
    requires forall t: Volume ::
      t.writers == map[] && t.live == {0} && t.thread == Draining(0, 0) ==> ok(t, Rebuild(Drained))
    ensures R.Reaches(R.Fresh(), Sending(), ok)
  {
    R.ToDrain(R.Fresh(), s, ok);
    R.ReadChunk(R.Fresh(), s.(wgen := 1, window := Some(0), thread := Draining(0, 0)), 0, ok);
  }

  /** The chunk is copied again, member 1 is promoted. */
  function Again(): Volume {
    R.Fresh().(wgen := 2, target := 1, cursor := 1)
  }

  lemma AgainReached(s: Volume, ok: R.Hypothesis)
    requires R.Lenient(ok) && s == Sending().(thread := Top) && R.Reaches(s, s, ok)
    requires ok(s.(wgen := 2, thread := Draining(0, 1)), Rebuild(Drained))
    ensures R.Reaches(s, Again(), ok)
  {
    R.ToDrain(s, s, ok);
    var t := s.(wgen := 2, thread := Draining(0, 1));
    R.ReadChunk(s, t, 0, ok);
    t := t.(thread := Copying(0, [0], 0));
    R.CopyAndPromote(s, t, 0, [0], Live, ok);
    R.Same(R.Promoted(t, 0, [0], Live), Again());
  }

  /** A write of 5 is acknowledged by both members. */
  function Written(): Volume {
    Again().(media := [[5], [5]], want := [5])
  }

  lemma WrittenReached(s: Volume, t: Volume, ok: R.Hypothesis)
    requires R.Lenient(ok) && R.Reaches(s, t, ok) && t == Again()
    ensures R.Reaches(s, Written(), ok)
  {
    R.BeginWrite(s, t, ok);
    var u := t.(writers := map[7 := R.W({0, 1}, Snapped)]);
    R.Admit(s, u, {0, 1}, 0, ok);
    assert [0, 0][0 := 0 + 1] == [1, 0];
    OneStores(s, t.(writers := map[7 := R.W({0, 1}, Admitted(0))], count := [1, 0]), ok);
  }

  /** Answered by the members of acked, each of which holds the data. */
  function Answered(acked: set<nat>, landed: set<(nat, nat)>): Writer {
    R.W({0, 1}, Admitted(0)).(landed := landed, acked := acked)
  }

  lemma OneStores(s: Volume, t: Volume, ok: R.Hypothesis)
    requires R.Lenient(ok) && t == Again().(writers := map[7 := R.W({0, 1}, Admitted(0))], count := [1, 0])
    requires R.Reaches(s, t, ok)
    ensures R.Reaches(s, Written(), ok)
  {
    R.Store(s, t, R.W({0, 1}, Admitted(0)), 0, ok);
    assert {} + {(0, 0)} == {(0, 0)} && {} + {0} == {0} && t.media[0 := [5]] == [[5], [0]];
    OtherStores(s, t.(media := [[5], [0]], writers := map[7 := Answered({0}, {(0, 0)})]), ok);
  }

  lemma OtherStores(s: Volume, t: Volume, ok: R.Hypothesis)
    requires R.Lenient(ok) && R.Reaches(s, t, ok)
    requires t == Again().(media := [[5], [0]], writers := map[7 := Answered({0}, {(0, 0)})], count := [1, 0])
    ensures R.Reaches(s, Written(), ok)
  {
    R.Store(s, t, Answered({0}, {(0, 0)}), 1, ok);
    assert {(0, 0)} + {(1, 0)} == {(0, 0), (1, 0)} && {0} + {1} == {0, 1} && t.media[1 := [5]] == [[5], [5]];
    var w := Answered({0, 1}, {(0, 0), (1, 0)});
    WriteEnds(s, t.(media := [[5], [5]], writers := map[7 := w]), w, ok);
  }

  lemma WriteEnds(s: Volume, u: Volume, w: Writer, ok: R.Hypothesis)
    requires R.Lenient(ok) && R.Reaches(s, u, ok) && w == Answered({0, 1}, {(0, 0), (1, 0)})
    requires u == Again().(media := [[5], [5]], writers := map[7 := w], count := [1, 0])
    ensures R.Reaches(s, Written(), ok)
  {
    R.EndWrite(s, u, w, ok);
    NobodyFails(u, w);
  }

  lemma NobodyFails(u: Volume, w: Writer)
    requires w.phase == Admitted(0) && w.err == {} && |u.count| == 2
    requires u == Again().(writers := u.writers, count := [1, 0], media := u.media) && u.media == [[5], [5]]
    ensures R.Ended(u, w) == Written()
  {
    R.Same(R.Ended(u, w), Written());
  }

  /** The first copy command of the only chunk times out, the second one succeeds, member 1
    * is promoted, a write of 5 is acknowledged: then the first command lands. */
  lemma LateCopyOverwrites()
    ensures exists b: Bus, e: Bus :: Init(b.v) && b.strays == {} && BusReaches(b, e) && R.LostWrite(e.v)
  {
    var b := Bus(R.Fresh(), {});
    CarefulIsLenient();
    R.FreshReached(CarefulStep);
    SendingReached(CarefulStep);
    FirstHalf(b);
    SecondHalf(b, Sending().(thread := Top));
  }

  lemma FirstHalf(b: Bus)
    requires b == Bus(R.Fresh(), {}) && R.Reaches(R.Fresh(), Sending(), CarefulStep)
    ensures BusReaches(b, Bus(Sending().(thread := Top), {Stray(1, 0, 0)}))
    ensures R.Reaches(Sending().(thread := Top), Sending().(thread := Top), CarefulStep)
  {
    assert Leads(b, [], b, false);
    RunsOn(b, R.Fresh(), Sending(), {});
    R.ReachesShape(R.Fresh(), Sending(), CarefulStep);
    StraySent(b, Sending().(thread := Top), Sending());
  }

  lemma StraySent(b: Bus, s: Volume, t: Volume)
    requires t == Sending() && s == t.(thread := Top) && BusReaches(b, Bus(t, {})) && Shape(t)
    ensures BusReaches(b, Bus(s, {Stray(1, 0, 0)})) && R.Reaches(s, s, CarefulStep)
  {
    assert ChunkLen(t) == 1 && |t.thread.buf| == 1 && t.cursor + 0 == 0;
    assert Stray(t.target, t.cursor + 0, t.thread.buf[0]) in Command(t);
    assert Command(t) == {Stray(1, 0, 0)};
    OneStep(b, Bus(t, {}), TimesOut, Bus(s, {Stray(1, 0, 0)}));
    StepKeepsShape(t, Rebuild(Retry));
    assert R.Follows(s, [], CarefulStep, s);
  }

  lemma SecondHalf(b: Bus, s: Volume)
    requires s == Sending().(thread := Top) && R.Reaches(s, s, CarefulStep) && R.Lenient(CarefulStep)
    requires BusReaches(b, Bus(s, {Stray(1, 0, 0)}))
    ensures exists e :: BusReaches(b, e) && R.LostWrite(e.v)
  {
    AgainReached(s, CarefulStep);
    WrittenReached(s, Again(), CarefulStep);
    RunsOn(b, s, Written(), {Stray(1, 0, 0)});
    R.ReachesShape(s, Written(), CarefulStep);
    StrayLands(b);
  }

  lemma StrayLands(b: Bus)
    requires BusReaches(b, Bus(Written(), {Stray(1, 0, 0)})) && Shape(Written())
    ensures exists e :: BusReaches(b, e) && R.LostWrite(e.v)
  {
    var c := Stray(1, 0, 0);
    var e := BusApply(Bus(Written(), {c}), Lands(c));
    OneStep(b, Bus(Written(), {c}), Lands(c), e);
    assert [5][0 := 0] == [0];
    assert 1 in e.v.live && e.v.media[1] == [0];
  }
}
