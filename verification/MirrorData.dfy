/** What the members hold: live copies carry the last write, and so does the
  * part of the rebuild target behind the cursor. */
module MirrorData {
  import opened Mirror
  import opened MirrorShape
  import opened MirrorExclusion

  /** No request is between its mask snapshot and its admission. */
  ghost predicate NoneInGate(s: Volume) {
    forall id :: id in s.writers ==> s.writers[id].phase.Admitted? || s.writers[id].phase.Settled?
  }

  /** The survivor picked before the drain is still live after it, and no request
    * on the chunk still carries an unreported error for it. */
  ghost predicate SurvivorTrusted(s: Volume)
    requires s.thread.Draining? && s.cursor <= s.geo.total
  {
    && s.thread.srv in s.live
    && forall id, x ::
         id in s.writers && s.writers[id].phase.Settled? && s.writers[id].Covers(x) && InChunk(s, x) ==>
           s.thread.srv !in s.writers[id].err
  }

  /** The hypotheses on a schedule under which the mirrors stay equal.  Each one
    * is needed: MirrorRaces gives a run that breaks only that one. */
  ghost predicate Careful(s: Volume, l: Step)
    requires Shape(s)
  {
    && (l.Rebuild? && l.r.Start? ==> StaleBucketEmpty(s) && NoneInGate(s))
    && (l.Rebuild? && l.r.Drained? && Enabled(s, l) ==> SurvivorTrusted(s))
  }

  /** Member m is supposed to be current at its sector p. */
  predicate Current(s: Volume, m: nat, p: nat)
    requires m < |s.st|
  {
    s.st[m] == Live || (s.st[m] == Resyncing && p < s.cursor)
  }

  /** Sector x is not being written, and nobody owes m's failure on it. */
  ghost predicate Quiet(s: Volume, m: nat, x: nat) {
    forall id :: id in s.writers && s.writers[id].Covers(x) ==>
      !s.writers[id].phase.Admitted? && (s.writers[id].phase.Settled? ==> m !in s.writers[id].err)
  }

  /** A write on its way reaches every member it has to. */
  ghost predicate MaskOk(s: Volume, w: Writer, m: nat)
    requires m < |s.st|
  {
    !w.phase.Settled? && Touches(s.geo, w.pos, |w.data|, s.geo.colOf(m)) ==>
      && (s.st[m] == Live ==> m in w.mask)
      && (s.st[m] == Resyncing ==> m in w.mask || OlderThanRebuild(s, w))
  }

  /** w was admitted before the rebuild began: the first drain waits for it. */
  predicate OlderThanRebuild(s: Volume, w: Writer) {
    && w.phase.Admitted? && s.cursor == 0
    && (s.thread.Top? || s.thread.Published? || s.thread == Ending(false)
        || (s.thread.Draining? && w.phase.g == s.thread.bucket))
  }

  ghost predicate MasksOk(s: Volume)
    requires Shape(s)
  {
    forall id, m :: id in s.writers && 0 <= m < s.geo.members ==> MaskOk(s, s.writers[id], m)
  }

  /** What has landed is on the media, and an OK answer means all has landed. */
  ghost predicate LandedOk(s: Volume, w: Writer)
    requires s.geo.Sound() && |s.media| == s.geo.members
  {
    && (w.phase.Admitted? ==> forall m, x :: (m, x) in w.landed ==> OnMedia(s, w, m, x))
    && (forall m :: m in w.acked && m !in w.err ==> AllLanded(s.geo, w, m))
  }

  predicate OnMedia(s: Volume, w: Writer, m: nat, x: nat) {
    m < |s.media| && w.Covers(x) && s.geo.at(x) < |s.media[m]|
    && s.media[m][s.geo.at(x)] == w.data[x - w.pos]
  }

  ghost predicate AllLandedOk(s: Volume)
    requires Shape(s)
  {
    forall id :: id in s.writers ==> LandedOk(s, s.writers[id])
  }

  /** Every current copy of a quiet sector holds the last write. */
  ghost predicate CopiesOk(s: Volume)
    requires Shape(s)
  {
    forall m, x :: 0 <= m < s.geo.members && 0 <= x < s.geo.capacity ==> CopyOk(s, m, x)
  }

  ghost predicate CopyOk(s: Volume, m: nat, x: nat)
    requires Shape(s) && m < s.geo.members && x < s.geo.capacity
  {
    s.geo.col(x) == s.geo.colOf(m) && Current(s, m, s.geo.at(x)) && Quiet(s, m, x) ==>
      s.media[m][s.geo.at(x)] == s.want[x]
  }

  /** The copy buffer, the part of the survivor still to read and the part of the
    * target already written all hold the last write. */
  ghost predicate ChunkOk(s: Volume)
    requires Shape(s)
  {
    s.thread.Copying? ==>
      forall x :: 0 <= x < s.geo.capacity && InChunk(s, x) ==> ChunkSectorOk(s, x)
  }

  ghost predicate ChunkSectorOk(s: Volume, x: nat)
    requires Shape(s) && s.thread.Copying? && x < s.geo.capacity && InChunk(s, x)
  {
    var j := x - ChunkStart(s);
    && (j < |s.thread.buf| ==> s.thread.buf[j] == s.want[x])
    && (j >= |s.thread.buf| && s.cursor + j < s.geo.total ==>
          s.media[s.thread.srv][s.cursor + j] == s.want[x])
    && (j < s.thread.k && s.cursor + j < s.geo.total ==>
          s.media[s.target][s.cursor + j] == s.want[x])
  }

  ghost predicate DataOk(s: Volume)
    requires Shape(s)
  {
    MasksOk(s) && AllLandedOk(s) && CopiesOk(s) && ChunkOk(s)
  }

  lemma InitData(s: Volume)
    requires Init(s) && Shape(s)
    ensures GenOk(s) && DataOk(s)
  {
  }

  // ---------- masks ----------

  lemma WriteKeepsMaskOk(s: Volume, id: nat, l: WriteStep)
    requires Shape(s) && MasksOk(s) && WriteEnabled(s, id, l)
    requires Shape(ApplyWrite(s, id, l))
    ensures MasksOk(ApplyWrite(s, id, l))
  {
    var s' := ApplyWrite(s, id, l);
    WriteKeepsRest(s, id, l);
    forall j, m | j in s'.writers && 0 <= m < s.geo.members ensures MaskOk(s', s'.writers[j], m) {
      if j in s.writers { assert MaskOk(s, s.writers[j], m); }
      if j == id && l.Begin? {
        assert s'.writers[j].mask == MaskFor(s.geo, s.wr, l.pos, |l.data|);
      }
    }
  }

  lemma MemberKeepsMaskOk(s: Volume, m: nat, l: MemberStep)
    requires Shape(s) && MasksOk(s) && MemberEnabled(s, m, l)
    requires Shape(ApplyMember(s, m, l))
    ensures MasksOk(ApplyMember(s, m, l))
  {
    var s' := ApplyMember(s, m, l);
    forall j, i | j in s'.writers && 0 <= i < s.geo.members ensures MaskOk(s', s'.writers[j], i) {
      assert MaskOk(s, s.writers[j], i);
    }
  }

  lemma StartKeepsMask(s: Volume, m: nat, j: nat, i: nat)
    requires Shape(s) && RebuildEnabled(s, Start(m)) && NoneInGate(s)
    requires j in s.writers && i < s.geo.members && MaskOk(s, s.writers[j], i)
    ensures MaskOk(ApplyRebuild(s, Start(m)), s.writers[j], i)
  {
  }

  lemma ConcludeKeepsMask(s: Volume, j: nat, i: nat)
    requires Shape(s) && Single(s) && RebuildEnabled(s, Conclude)
    requires j in s.writers && i < s.geo.members && MaskOk(s, s.writers[j], i)
    ensures MaskOk(ApplyRebuild(s, Conclude), s.writers[j], i)
  {
  }

  lemma ThreadKeepsMask(s: Volume, l: RebuildStep, j: nat, i: nat)
    requires Shape(s) && RebuildEnabled(s, l) && !l.Start? && !l.Conclude?
    requires j in s.writers && i < s.geo.members && MaskOk(s, s.writers[j], i)
    requires WriterGen(s, s.writers[j])
    ensures MaskOk(ApplyRebuild(s, l), s.writers[j], i)
  {
    var s' := ApplyRebuild(s, l);
    assert s'.st == s.st && s'.geo == s.geo && s'.writers == s.writers;
    if l.Drained? { EmptyBucket(s, s.thread.bucket); }
    if s.cursor < s.geo.total { ChunkSectors(s); }
  }

  lemma RebuildKeepsMaskOk(s: Volume, l: RebuildStep)
    requires Shape(s) && MasksOk(s) && GenOk(s) && RebuildEnabled(s, l) && Careful(s, Rebuild(l))
    requires Shape(ApplyRebuild(s, l))
    ensures MasksOk(ApplyRebuild(s, l))
  {
    forall j, i | j in s.writers && 0 <= i < s.geo.members ensures MaskOk(ApplyRebuild(s, l), s.writers[j], i) {
      RebuildKeepsOneMask(s, l, j, i);
    }
    RebuildLeavesWriters(s, l);
  }

  lemma RebuildKeepsOneMask(s: Volume, l: RebuildStep, j: nat, i: nat)
    requires Shape(s) && MasksOk(s) && GenOk(s) && RebuildEnabled(s, l) && Careful(s, Rebuild(l))
    requires Shape(ApplyRebuild(s, l)) && j in s.writers && i < s.geo.members
    ensures MaskOk(ApplyRebuild(s, l), s.writers[j], i)
  {
    assert MaskOk(s, s.writers[j], i) && WriterGen(s, s.writers[j]);
    match l
    case Start(m) => StartKeepsMask(s, m, j, i);
    case Conclude => ConcludeKeepsMask(s, j, i);
    case _ => ThreadKeepsMask(s, l, j, i);
  }

  // ---------- what has landed ----------

  lemma WriteKeepsLanded(s: Volume, id: nat, l: WriteStep, j: nat)
    requires Shape(s) && AllLandedOk(s) && WriteEnabled(s, id, l)
    requires Shape(ApplyWrite(s, id, l)) && j in ApplyWrite(s, id, l).writers
    ensures LandedOk(ApplyWrite(s, id, l), ApplyWrite(s, id, l).writers[j])
  {
    WriteKeepsRest(s, id, l);
    if l.Land? {
      LandKeepsLanded(s, id, l.m, l.x, j);
      LandKeepsAcked(s, id, l.m, l.x, j);
    } else {
      OtherKeepsLanded(s, id, l, j);
    }
  }

  lemma LandKeepsAcked(s: Volume, id: nat, m: nat, x: nat, j: nat)
    requires Shape(s) && AllLandedOk(s) && WriteEnabled(s, id, Land(m, x)) && j in s.writers
    ensures var w := ApplyWrite(s, id, Land(m, x)).writers[j];
      forall i :: i in w.acked && i !in w.err ==> AllLanded(s.geo, w, i)
  {
    var w, w' := s.writers[j], ApplyWrite(s, id, Land(m, x)).writers[j];
    assert LandedOk(s, w);
    forall i | i in w'.acked && i !in w'.err ensures AllLanded(s.geo, w', i) {
      assert AllLanded(s.geo, w, i);
    }
  }

  lemma OtherKeepsLanded(s: Volume, id: nat, l: WriteStep, j: nat)
    requires Shape(s) && AllLandedOk(s) && WriteEnabled(s, id, l) && !l.Land?
    requires Shape(ApplyWrite(s, id, l)) && j in ApplyWrite(s, id, l).writers
    ensures LandedOk(ApplyWrite(s, id, l), ApplyWrite(s, id, l).writers[j])
  {
    var s' := ApplyWrite(s, id, l);
    OtherKeepsMedia(s, id, l);
    if j in s.writers {
      assert WriterOk(s, s.writers[j]);
      LandedCarries(s, s', s.writers[j], s'.writers[j]);
    }
  }

  lemma OtherKeepsMedia(s: Volume, id: nat, l: WriteStep)
    requires Shape(s) && WriteEnabled(s, id, l) && !l.Land?
    ensures var s' := ApplyWrite(s, id, l); s'.media == s.media && s'.geo == s.geo
    ensures var s' := ApplyWrite(s, id, l);
      forall j :: j in s'.writers && j in s.writers ==> SameRange(s.geo, s.writers[j], s'.writers[j])
  {
    var s' := ApplyWrite(s, id, l);
    WriteKeepsRest(s, id, l);
    if id in s.writers && id in s'.writers { OwnRange(s, id, l); }
    forall j | j in s'.writers && j in s.writers ensures SameRange(s.geo, s.writers[j], s'.writers[j]) {}
  }

  lemma OwnRange(s: Volume, id: nat, l: WriteStep)
    requires Shape(s) && WriteEnabled(s, id, l) && !l.Land?
    requires id in s.writers && id in ApplyWrite(s, id, l).writers
    ensures SameRange(s.geo, s.writers[id], ApplyWrite(s, id, l).writers[id])
  {
    assert WriterOk(s, s.writers[id]);
  }

  /** The same write later: no further sector landed, OK answers only after all had. */
  ghost predicate SameRange(geo: Layout, w: Writer, w': Writer) {
    && w'.landed == w.landed && w'.pos == w.pos && w'.data == w.data
    && (w'.phase.Admitted? ==> w.phase.Admitted? || w.landed == {})
    && forall m :: m in w'.acked && m !in w'.err ==> (m in w.acked && m !in w.err) || AllLanded(geo, w, m)
  }

  lemma LandedCarries(s: Volume, s': Volume, w: Writer, w': Writer)
    requires s.geo.Sound() && |s.media| == s.geo.members && LandedOk(s, w)
    requires s'.geo == s.geo && s'.media == s.media && SameRange(s.geo, w, w')
    ensures LandedOk(s', w')
  {
    if w'.phase.Admitted? {
      forall i, x | (i, x) in w'.landed ensures OnMedia(s', w', i, x) {
        assert OnMedia(s, w, i, x);
      }
    }
    forall m | m in w'.acked && m !in w'.err ensures AllLanded(s.geo, w', m) {
      assert AllLanded(s.geo, w, m);
    }
  }

  lemma LandKeepsLanded(s: Volume, id: nat, m: nat, x: nat, j: nat)
    requires Shape(s) && AllLandedOk(s) && WriteEnabled(s, id, Land(m, x)) && j in s.writers
    ensures var s' := ApplyWrite(s, id, Land(m, x));
      s'.writers[j].phase.Admitted? ==>
        forall i, y :: (i, y) in s'.writers[j].landed ==> OnMedia(s', s'.writers[j], i, y)
  {
    var s' := ApplyWrite(s, id, Land(m, x));
    var w, w' := s.writers[j], s'.writers[j];
    assert LandedOk(s, w) && WriterOk(s, w) && WriterOk(s, s.writers[id]);
    if w'.phase.Admitted? {
      forall i, y | (i, y) in w'.landed ensures OnMedia(s', w', i, y) {
        if (i, y) in w.landed {
          assert OnMedia(s, w, i, y);
          if i == m && s.geo.at(y) == s.geo.at(x) { assert x == y; }
        }
      }
    }
  }

  /** Media outside what a writer has landed may change. */
  lemma MediaChange(s: Volume, s': Volume, m: nat, p: nat)
    requires Shape(s) && Shape(s') && AllLandedOk(s)
    requires s'.geo == s.geo && s'.writers == s.writers
    requires m < s.geo.members && p < s.geo.total
    requires forall i, q :: 0 <= i < s.geo.members && 0 <= q < s.geo.total && (i != m || q != p) ==>
      s'.media[i][q] == s.media[i][q]
    requires forall id, x :: id in s.writers && s.writers[id].phase.Admitted? && s.writers[id].Covers(x) ==>
      s.geo.col(x) != s.geo.colOf(m) || s.geo.at(x) != p
    ensures AllLandedOk(s')
  {
    forall id | id in s'.writers ensures LandedOk(s', s'.writers[id]) {
      var w := s.writers[id];
      assert LandedOk(s, w) && WriterOk(s, w);
      if w.phase.Admitted? {
        forall i, x | (i, x) in w.landed ensures OnMedia(s', w, i, x) {
          assert OnMedia(s, w, i, x);
        }
      }
    }
  }

  lemma MemberKeepsLanded(s: Volume, m: nat, l: MemberStep)
    requires Shape(s) && AllLandedOk(s) && MemberEnabled(s, m, l)
    requires Shape(ApplyMember(s, m, l))
    ensures AllLandedOk(ApplyMember(s, m, l))
  {
    var s' := ApplyMember(s, m, l);
    forall id | id in s'.writers ensures LandedOk(s', s'.writers[id]) {
      var w := s.writers[id];
      assert LandedOk(s, w) && WriterOk(s, w);
      if w.phase.Admitted? {
        forall i, x | (i, x) in w.landed ensures OnMedia(s', w, i, x) {
          assert OnMedia(s, w, i, x);
        }
      }
    }
  }

  lemma CopyWriteKeepsLanded(s: Volume)
    requires Shape(s) && AllLandedOk(s) && ChunkIsQuiet(s) && RebuildEnabled(s, CopyWrite)
    requires Shape(ApplyRebuild(s, CopyWrite))
    ensures AllLandedOk(ApplyRebuild(s, CopyWrite))
  {
    ChunkSectors(s);
    var p, x0 := s.cursor + s.thread.k, ChunkStart(s) + s.thread.k;
    assert ChunkAt(s, s.thread.k) && InChunk(s, x0);
    forall id, x | id in s.writers && s.writers[id].phase.Admitted? && s.writers[id].Covers(x)
      ensures s.geo.col(x) != s.geo.colOf(s.target) || s.geo.at(x) != p
    {
      assert WriterOk(s, s.writers[id]);
      assert x != x0;
    }
    MediaChange(s, ApplyRebuild(s, CopyWrite), s.target, p);
  }

  lemma RebuildKeepsLanded(s: Volume, l: RebuildStep)
    requires Shape(s) && AllLandedOk(s) && GenOk(s) && RebuildEnabled(s, l)
    requires Shape(ApplyRebuild(s, l))
    ensures AllLandedOk(ApplyRebuild(s, l))
  {
    var s' := ApplyRebuild(s, l);
    if l.CopyWrite? {
      GenQuiet(s);
      CopyWriteKeepsLanded(s);
    } else {
      assert s'.media == s.media && s'.geo == s.geo && s'.writers == s.writers;
      forall id | id in s'.writers ensures LandedOk(s', s'.writers[id]) {
        LandedCarries(s, s', s.writers[id], s.writers[id]);
      }
    }
  }

  // ---------- the copies ----------

  /** The step at the heart: once every member of a write has answered, each
    * current copy without an error of its own holds the write's data. */
  lemma SettleKeepsCopy(s: Volume, id: nat, m: nat, x: nat)
    requires Shape(s) && MasksOk(s) && AllLandedOk(s) && CopiesOk(s)
    requires WriteEnabled(s, id, Settle) && Shape(ApplyWrite(s, id, Settle))
    requires m < s.geo.members && x < s.geo.capacity
    ensures CopyOk(ApplyWrite(s, id, Settle), m, x)
  {
    var s' := ApplyWrite(s, id, Settle);
    var w := s.writers[id];
    assert CopyOk(s, m, x) && MaskOk(s, w, m) && LandedOk(s, w) && WriterOk(s, w);
    if s.geo.col(x) == s.geo.colOf(m) && Current(s', m, s.geo.at(x)) && Quiet(s', m, x) {
      if w.Covers(x) {
        assert Touches(s.geo, w.pos, |w.data|, s.geo.colOf(m));
        assert m in w.mask;
        assert m !in s'.writers[id].err;
        assert (m, x) in w.landed;
        assert OnMedia(s, w, m, x);
        assert s'.want[x] == w.data[x - w.pos];
      } else {
        assert s'.want[x] == s.want[x];
        SettleElsewhere(s, id, m, x);
      }
    }
  }

  /** A sector the settling write does not cover is as quiet after as before. */
  lemma SettleElsewhere(s: Volume, id: nat, m: nat, x: nat)
    requires Shape(s) && WriteEnabled(s, id, Settle) && Shape(ApplyWrite(s, id, Settle))
    requires m < s.geo.members && x < s.geo.capacity && !s.writers[id].Covers(x)
    requires Quiet(ApplyWrite(s, id, Settle), m, x)
    ensures Quiet(s, m, x)
  {
    var s' := ApplyWrite(s, id, Settle);
    forall j | j in s.writers && s.writers[j].Covers(x)
      ensures !s.writers[j].phase.Admitted?
      ensures s.writers[j].phase.Settled? ==> m !in s.writers[j].err
    {
      assert s'.writers[j] == s.writers[j];
    }
  }

  lemma FinishKeepsCopy(s: Volume, id: nat, m: nat, x: nat)
    requires Shape(s) && CopiesOk(s)
    requires WriteEnabled(s, id, Finish) && Shape(ApplyWrite(s, id, Finish))
    requires m < s.geo.members && x < s.geo.capacity
    ensures CopyOk(ApplyWrite(s, id, Finish), m, x)
  {
    var s' := ApplyWrite(s, id, Finish);
    assert CopyOk(s, m, x);
    if Current(s', m, s.geo.at(x)) && Quiet(s', m, x) {
      assert s'.st[m] == s.st[m];
      assert m !in s.writers[id].err;
      forall j | j in s.writers && s.writers[j].Covers(x)
        ensures !s.writers[j].phase.Admitted?
        ensures s.writers[j].phase.Settled? ==> m !in s.writers[j].err
      {
        if j != id { assert s'.writers[j] == s.writers[j]; }
      }
      assert Quiet(s, m, x);
    }
  }

  lemma LandKeepsCopy(s: Volume, id: nat, m: nat, y: nat, i: nat, x: nat)
    requires Shape(s) && CopiesOk(s)
    requires WriteEnabled(s, id, Land(m, y)) && Shape(ApplyWrite(s, id, Land(m, y)))
    requires i < s.geo.members && x < s.geo.capacity
    ensures CopyOk(ApplyWrite(s, id, Land(m, y)), i, x)
  {
    var s' := ApplyWrite(s, id, Land(m, y));
    assert CopyOk(s, i, x) && WriterOk(s, s.writers[id]);
    if s.geo.col(x) == s.geo.colOf(i) && Quiet(s', i, x) {
      QuietBack(s, s', id, i, x);
      assert s'.writers[id].Covers(y) && !s'.writers[id].Covers(x);
      LandElsewhere(s, id, m, y, i, x);
    }
  }

  /** A sector landing on one member leaves every other sector of every member. */
  lemma LandElsewhere(s: Volume, id: nat, m: nat, y: nat, i: nat, x: nat)
    requires Shape(s) && WriteEnabled(s, id, Land(m, y)) && WriterOk(s, s.writers[id])
    requires i < s.geo.members && x < s.geo.capacity && s.geo.col(x) == s.geo.colOf(i) && x != y
    ensures ApplyWrite(s, id, Land(m, y)).media[i][s.geo.at(x)] == s.media[i][s.geo.at(x)]
  {
    assert i != m || s.geo.at(x) != s.geo.at(y);
  }

  /** A step of one write that neither ends it nor moves its range cannot make a
    * sector quiet. */
  lemma QuietBack(s: Volume, s': Volume, id: nat, m: nat, x: nat)
    requires Quiet(s', m, x)
    requires forall j :: j != id && j in s.writers ==> j in s'.writers && s'.writers[j] == s.writers[j]
    requires id in s.writers && id in s'.writers ==>
      s'.writers[id].pos == s.writers[id].pos && s'.writers[id].data == s.writers[id].data
      && (s.writers[id].phase.Admitted? ==> s'.writers[id].phase.Admitted?)
    requires id in s.writers ==> !s.writers[id].phase.Settled?
    requires id in s.writers && id !in s'.writers ==> !s.writers[id].phase.Admitted?
    ensures Quiet(s, m, x)
  {
    forall j | j in s.writers && s.writers[j].Covers(x)
      ensures !s.writers[j].phase.Admitted?
      ensures s.writers[j].phase.Settled? ==> m !in s.writers[j].err
    {
      if j in s'.writers { assert s'.writers[j].Covers(x); }
    }
  }

  lemma WriteKeepsCopies(s: Volume, id: nat, l: WriteStep)
    requires Shape(s) && MasksOk(s) && AllLandedOk(s) && CopiesOk(s) && WriteEnabled(s, id, l)
    requires Shape(ApplyWrite(s, id, l))
    ensures CopiesOk(ApplyWrite(s, id, l))
  {
    var s' := ApplyWrite(s, id, l);
    WriteKeepsRest(s, id, l);
    forall m, x | 0 <= m < s.geo.members && 0 <= x < s.geo.capacity ensures CopyOk(s', m, x) {
      assert CopyOk(s, m, x);
      match l {
        case Settle => SettleKeepsCopy(s, id, m, x);
        case Finish => FinishKeepsCopy(s, id, m, x);
        case Land(i, y) => LandKeepsCopy(s, id, i, y, m, x);
        case _ =>
          assert s'.media == s.media && s'.st == s.st && s'.want == s.want;
          if Quiet(s', m, x) { QuietBack(s, s', id, m, x); }
      }
    }
  }

  lemma MemberKeepsCopies(s: Volume, m: nat, l: MemberStep)
    requires Shape(s) && CopiesOk(s) && MemberEnabled(s, m, l)
    requires Shape(ApplyMember(s, m, l))
    ensures CopiesOk(ApplyMember(s, m, l))
  {
    var s' := ApplyMember(s, m, l);
    forall i, x | 0 <= i < s.geo.members && 0 <= x < s.geo.capacity ensures CopyOk(s', i, x) {
      assert CopyOk(s, i, x);
      if Quiet(s', i, x) { assert Quiet(s, i, x); }
    }
  }

  lemma AdvanceKeepsCopy(s: Volume, i: nat, x: nat)
    requires Shape(s) && Single(s) && CopiesOk(s) && ChunkOk(s) && RebuildEnabled(s, Advance)
    requires Shape(ApplyRebuild(s, Advance))
    requires i < s.geo.members && x < s.geo.capacity
    ensures CopyOk(ApplyRebuild(s, Advance), i, x)
  {
    var s' := ApplyRebuild(s, Advance);
    assert CopyOk(s, i, x);
    ChunkSectors(s);
    if s.geo.col(x) == s.geo.colOf(i) && Current(s', i, s.geo.at(x)) && Quiet(s', i, x) {
      assert Quiet(s, i, x);
      if !Current(s, i, s.geo.at(x)) {
        assert i == s.target;
        var j := s.geo.at(x) - s.cursor;
        assert ChunkAt(s, j);
        assert x == ChunkStart(s) + j;
        assert ChunkSectorOk(s, x);
      }
    }
  }

  lemma CopyWriteKeepsCopy(s: Volume, i: nat, x: nat)
    requires Shape(s) && CopiesOk(s) && RebuildEnabled(s, CopyWrite)
    requires Shape(ApplyRebuild(s, CopyWrite))
    requires i < s.geo.members && x < s.geo.capacity
    ensures CopyOk(ApplyRebuild(s, CopyWrite), i, x)
  {
    assert CopyOk(s, i, x);
    ChunkSectors(s);
    var s' := ApplyRebuild(s, CopyWrite);
    if Current(s', i, s.geo.at(x)) && Quiet(s', i, x) {
      assert Quiet(s, i, x);
      assert i != s.target || s.geo.at(x) < s.cursor;
    }
  }

  lemma StartKeepsCopy(s: Volume, m: nat, i: nat, x: nat)
    requires Shape(s) && CopiesOk(s) && RebuildEnabled(s, Start(m))
    requires Shape(ApplyRebuild(s, Start(m)))
    requires i < s.geo.members && x < s.geo.capacity
    ensures CopyOk(ApplyRebuild(s, Start(m)), i, x)
  {
    assert CopyOk(s, i, x);
    var s' := ApplyRebuild(s, Start(m));
    if Quiet(s', i, x) { assert Quiet(s, i, x); }
  }

  lemma ConcludeKeepsCopy(s: Volume, i: nat, x: nat)
    requires Shape(s) && CopiesOk(s) && RebuildEnabled(s, Conclude)
    requires Shape(ApplyRebuild(s, Conclude))
    requires i < s.geo.members && x < s.geo.capacity
    ensures CopyOk(ApplyRebuild(s, Conclude), i, x)
  {
    assert CopyOk(s, i, x);
    var s' := ApplyRebuild(s, Conclude);
    if Quiet(s', i, x) { assert Quiet(s, i, x); }
  }

  lemma RebuildKeepsCopies(s: Volume, l: RebuildStep)
    requires Shape(s) && GenOk(s) && CopiesOk(s) && ChunkOk(s) && RebuildEnabled(s, l)
    requires Shape(ApplyRebuild(s, l))
    ensures CopiesOk(ApplyRebuild(s, l))
  {
    var s' := ApplyRebuild(s, l);
    forall i, x | 0 <= i < s.geo.members && 0 <= x < s.geo.capacity ensures CopyOk(s', i, x) {
      match l {
        case Advance => AdvanceKeepsCopy(s, i, x);
        case CopyWrite => CopyWriteKeepsCopy(s, i, x);
        case Start(m) => StartKeepsCopy(s, m, i, x);
        case Conclude => ConcludeKeepsCopy(s, i, x);
        case _ => ThreadKeepsCopy(s, l, i, x);
      }
    }
  }

  lemma ThreadKeepsCopy(s: Volume, l: RebuildStep, i: nat, x: nat)
    requires Shape(s) && CopiesOk(s) && RebuildEnabled(s, l) && Shape(ApplyRebuild(s, l))
    requires !l.Advance? && !l.CopyWrite? && !l.Start? && !l.Conclude?
    requires i < s.geo.members && x < s.geo.capacity
    ensures CopyOk(ApplyRebuild(s, l), i, x)
  {
    var s' := ApplyRebuild(s, l);
    assert s'.media == s.media && s'.st == s.st && s'.writers == s.writers && s'.cursor == s.cursor;
    assert CopyOk(s, i, x);
    if Quiet(s', i, x) { assert Quiet(s, i, x); }
  }

  // ---------- the chunk in flight ----------

  /** Two sectors of the volume never share a place. */
  lemma Apart(geo: Layout, x: nat, y: nat)
    requires geo.Sound() && x < geo.capacity && y < geo.capacity && x != y
    ensures geo.col(y) != geo.col(x) || geo.at(y) != geo.at(x)
  {
  }

  lemma LandKeepsChunk(s: Volume, id: nat, m: nat, y: nat, x: nat)
    requires Shape(s) && ChunkIsQuiet(s) && s.thread.Copying? && WriteEnabled(s, id, Land(m, y))
    requires Shape(ApplyWrite(s, id, Land(m, y)))
    requires x < s.geo.capacity && InChunk(s, x) && ChunkSectorOk(s, x)
    ensures ChunkSectorOk(ApplyWrite(s, id, Land(m, y)), x)
  {
    ChunkSectors(s);
    assert ChunkAt(s, x - ChunkStart(s));
    assert s.writers[id].Covers(y) && WriterOk(s, s.writers[id]);
    assert x != y;
    Apart(s.geo, x, y);
  }

  lemma SettleKeepsChunk(s: Volume, id: nat, x: nat)
    requires Shape(s) && ChunkIsQuiet(s) && s.thread.Copying? && WriteEnabled(s, id, Settle)
    requires Shape(ApplyWrite(s, id, Settle))
    requires x < s.geo.capacity && InChunk(s, x) && ChunkSectorOk(s, x)
    ensures ChunkSectorOk(ApplyWrite(s, id, Settle), x)
  {
    assert WriterOk(s, s.writers[id]);
    assert !s.writers[id].Covers(x);
    assert ApplyWrite(s, id, Settle).want[x] == s.want[x];
  }

  lemma OtherKeepsChunk(s: Volume, id: nat, l: WriteStep, x: nat)
    requires Shape(s) && s.thread.Copying? && WriteEnabled(s, id, l) && !l.Land? && !l.Settle?
    requires Shape(ApplyWrite(s, id, l))
    requires x < s.geo.capacity && InChunk(s, x) && ChunkSectorOk(s, x)
    ensures
      var s' := ApplyWrite(s, id, l);
      s'.thread == s.thread && InChunk(s', x) && ChunkSectorOk(s', x)
  {
    WriteKeepsRest(s, id, l);
    OtherKeepsMedia(s, id, l);
    OtherKeepsWant(s, id, l);
    ChunkSame(s, ApplyWrite(s, id, l), x);
  }

  lemma OtherKeepsWant(s: Volume, id: nat, l: WriteStep)
    requires Shape(s) && WriteEnabled(s, id, l) && !l.Settle?
    ensures ApplyWrite(s, id, l).want == s.want
  {
  }

  lemma ChunkSame(s: Volume, t: Volume, x: nat)
    requires Shape(s) && s.thread.Copying? && x < s.geo.capacity && InChunk(s, x) && ChunkSectorOk(s, x)
    requires Shape(t) && t.geo == s.geo && t.thread == s.thread && t.media == s.media && t.want == s.want
    requires t.target == s.target && t.cursor == s.cursor
    ensures InChunk(t, x) && ChunkSectorOk(t, x)
  {
  }

  lemma WriteKeepsChunk(s: Volume, id: nat, l: WriteStep)
    requires Shape(s) && GenOk(s) && ChunkOk(s) && WriteEnabled(s, id, l)
    requires Shape(ApplyWrite(s, id, l))
    ensures ChunkOk(ApplyWrite(s, id, l))
  {
    var s' := ApplyWrite(s, id, l);
    WriteKeepsRest(s, id, l);
    GenQuiet(s);
    if s.thread.Copying? {
      forall x | 0 <= x < s.geo.capacity && InChunk(s', x) ensures ChunkSectorOk(s', x) {
        assert InChunk(s, x) && ChunkSectorOk(s, x);
        match l {
          case Land(m, y) => LandKeepsChunk(s, id, m, y, x);
          case Settle => SettleKeepsChunk(s, id, x);
          case _ => OtherKeepsChunk(s, id, l, x);
        }
      }
    }
  }

  lemma MemberKeepsChunk(s: Volume, m: nat, l: MemberStep)
    requires Shape(s) && ChunkOk(s) && MemberEnabled(s, m, l)
    requires Shape(ApplyMember(s, m, l))
    ensures ChunkOk(ApplyMember(s, m, l))
  {
    var s' := ApplyMember(s, m, l);
    if s.thread.Copying? {
      forall x | 0 <= x < s.geo.capacity && InChunk(s', x) ensures ChunkSectorOk(s', x) {
        assert InChunk(s, x) && ChunkSectorOk(s, x);
      }
    }
  }

  lemma DrainedMakesChunk(s: Volume)
    requires Shape(s) && GenOk(s) && CopiesOk(s) && RebuildEnabled(s, Drained) && SurvivorTrusted(s)
    requires Shape(ApplyRebuild(s, Drained))
    ensures ChunkOk(ApplyRebuild(s, Drained))
  {
    var s' := ApplyRebuild(s, Drained);
    RebuildKeepsGen(s, Drained);
    GenQuiet(s');
    ChunkSectors(s);
    var v := s.thread.srv;
    forall x | 0 <= x < s.geo.capacity && InChunk(s', x) ensures ChunkSectorOk(s', x) {
      assert ChunkAt(s, x - ChunkStart(s));
      assert InChunk(s, x);
      assert CopyOk(s, v, x);
      assert Quiet(s, v, x);
    }
  }

  lemma RebuildKeepsChunk(s: Volume, l: RebuildStep)
    requires Shape(s) && GenOk(s) && CopiesOk(s) && ChunkOk(s) && RebuildEnabled(s, l) && Careful(s, Rebuild(l))
    requires Shape(ApplyRebuild(s, l))
    ensures ChunkOk(ApplyRebuild(s, l))
  {
    var s' := ApplyRebuild(s, l);
    if l.Drained? {
      DrainedMakesChunk(s);
    } else if s'.thread.Copying? {
      ChunkSectors(s);
      forall x | 0 <= x < s.geo.capacity && InChunk(s', x) ensures ChunkSectorOk(s', x) {
        assert InChunk(s, x) && ChunkSectorOk(s, x);
      }
    }
  }

  // ---------- every step ----------

  lemma StepKeepsData(s: Volume, l: Step)
    requires Shape(s) && GenOk(s) && DataOk(s) && Enabled(s, l) && Careful(s, l)
    requires Shape(Apply(s, l))
    ensures DataOk(Apply(s, l))
  {
    match l
    case Write(id, w) =>
      WriteKeepsMaskOk(s, id, w);
      forall j | j in Apply(s, l).writers ensures LandedOk(Apply(s, l), Apply(s, l).writers[j]) {
        WriteKeepsLanded(s, id, w, j);
      }
      WriteKeepsCopies(s, id, w);
      WriteKeepsChunk(s, id, w);
    case Member(m, e) =>
      MemberKeepsMaskOk(s, m, e);
      MemberKeepsLanded(s, m, e);
      MemberKeepsCopies(s, m, e);
      MemberKeepsChunk(s, m, e);
    case Rebuild(r) =>
      RebuildKeepsMaskOk(s, r);
      RebuildKeepsLanded(s, r);
      RebuildKeepsCopies(s, r);
      RebuildKeepsChunk(s, r);
  }
}
