/** The window and the two reused generation buckets keep application writes off
  * the chunk while it is copied. */
module MirrorExclusion {
  import opened Mirror
  import opened MirrorShape

  /** The bucket the next flip reuses holds no request. */
  ghost predicate StaleBucketEmpty(s: Volume)
    requires |s.count| == 2
  {
    s.count[(s.wgen + 1) % 2] == 0
  }

  /** A rebuild starts only after the bucket left behind by an interrupted drain
    * has emptied: the queue freeze after rc_volume_resync_stop sees to that. */
  ghost predicate DrainedBeforeStart(s: Volume, l: Step)
    requires Shape(s)
  {
    l.Rebuild? && l.r.Start? ==> StaleBucketEmpty(s)
  }

  ghost predicate WriterGen(s: Volume, w: Writer) {
    && ((w.phase.Rechecked? || w.phase.Admitted?) && s.thread.Running() ==>
          w.phase.g == s.wgen % 2 || (s.thread.Draining? && w.phase.g == s.thread.bucket))
    && ((s.thread.Draining? || s.thread.Copying?) && s.window.Some? ==>
          w.phase.Admitted? && w.phase.g == s.wgen % 2 ==> !w.Overlaps(s.window.value, XFER))
  }

  /** While the thread runs, a request past its re-check is counted in the
    * current generation, or in the one being drained; counted in the current
    * one during drain and copy, it has seen the window and missed it. */
  ghost predicate GenOk(s: Volume)
    requires Shape(s)
  {
    Single(s) && forall id :: id in s.writers ==> WriterGen(s, s.writers[id])
  }

  lemma WriteKeepsGen(s: Volume, id: nat, l: WriteStep)
    requires Shape(s) && GenOk(s) && WriteEnabled(s, id, l)
    ensures Shape(ApplyWrite(s, id, l)) && GenOk(ApplyWrite(s, id, l))
  {
    WriteKeepsShape(s, id, l);
    WriteKeepsRest(s, id, l);
    WriteKeepsSingle(s, id, l);
    var s' := ApplyWrite(s, id, l);
    forall j | j in s'.writers ensures WriterGen(s', s'.writers[j]) {
      WriteKeepsWriterGen(s, id, l, j);
    }
  }

  lemma WriteKeepsWriterGen(s: Volume, id: nat, l: WriteStep, j: nat)
    requires Shape(s) && WriteEnabled(s, id, l) && j in ApplyWrite(s, id, l).writers
    requires forall i :: i in s.writers ==> WriterGen(s, s.writers[i])
    ensures WriterGen(ApplyWrite(s, id, l), ApplyWrite(s, id, l).writers[j])
  {
    WriteKeepsRest(s, id, l);
    if j in s.writers { assert WriterGen(s, s.writers[j]); }
  }

  lemma WriteKeepsSingle(s: Volume, id: nat, l: WriteStep)
    requires Shape(s) && Single(s) && WriteEnabled(s, id, l) && Shape(ApplyWrite(s, id, l))
    ensures Single(ApplyWrite(s, id, l))
  {
    WriteKeepsRest(s, id, l);
    WriteResyncsNone(s, id, l);
  }

  lemma WriteResyncsNone(s: Volume, id: nat, l: WriteStep)
    requires Shape(s) && WriteEnabled(s, id, l)
    ensures var st := ApplyWrite(s, id, l).st;
      |st| == |s.st| && forall m :: 0 <= m < |st| && st[m] == Resyncing ==> s.st[m] == Resyncing
  {
    if l.Finish? { FailKeepsOthers(s, s.writers[id].err); }
  }

  /** Marking members failed makes none of them resyncing. */
  lemma FailKeepsOthers(s: Volume, ms: set<nat>)
    ensures |MarkFailed(s, ms).st| == |s.st|
    ensures forall m :: 0 <= m < |s.st| && MarkFailed(s, ms).st[m] == Resyncing ==> s.st[m] == Resyncing
  {
  }

  lemma MemberKeepsSingle(s: Volume, m: nat, l: MemberStep)
    requires Shape(s) && Single(s) && MemberEnabled(s, m, l) && Shape(ApplyMember(s, m, l))
    ensures Single(ApplyMember(s, m, l))
  {
    if l.Fail? { FailKeepsOthers(s, {m}); }
  }

  lemma RebuildKeepsSingle(s: Volume, l: RebuildStep)
    requires Shape(s) && Single(s) && RebuildEnabled(s, l) && Shape(ApplyRebuild(s, l))
    ensures Single(ApplyRebuild(s, l))
  {
    match l
    case Start(m) => StartKeepsSingle(s, m);
    case Conclude => ConcludeKeepsSingle(s);
    case _ => assert ApplyRebuild(s, l).st == s.st;
  }

  lemma StartKeepsSingle(s: Volume, m: nat)
    requires Shape(s) && Single(s) && RebuildEnabled(s, Start(m)) && Shape(ApplyRebuild(s, Start(m)))
    ensures Single(ApplyRebuild(s, Start(m)))
  {
  }

  lemma ConcludeKeepsSingle(s: Volume)
    requires Shape(s) && Single(s) && RebuildEnabled(s, Conclude) && Shape(ApplyRebuild(s, Conclude))
    ensures Single(ApplyRebuild(s, Conclude))
  {
  }

  lemma EmptyBucket(s: Volume, b: nat)
    requires Shape(s) && b < 2 && s.count[b] == 0
    ensures forall id :: id in s.writers ==> !s.writers[id].InBucket(b)
  {
    assert CountedIn(s.writers, b) == {};
    forall id | id in s.writers ensures !s.writers[id].InBucket(b) {
      assert id !in CountedIn(s.writers, b);
    }
  }

  lemma StartKeepsGen(s: Volume, m: nat, j: nat)
    requires Shape(s) && GenOk(s) && RebuildEnabled(s, Start(m)) && StaleBucketEmpty(s) && j in s.writers
    ensures WriterGen(ApplyRebuild(s, Start(m)), s.writers[j])
  {
    EmptyBucket(s, (s.wgen + 1) % 2);
    assert WriterOk(s, s.writers[j]);
  }

  lemma DrainedKeepsGen(s: Volume, j: nat)
    requires Shape(s) && GenOk(s) && RebuildEnabled(s, Drained) && j in s.writers
    ensures WriterGen(ApplyRebuild(s, Drained), s.writers[j])
  {
    EmptyBucket(s, s.thread.bucket);
    assert WriterGen(s, s.writers[j]);
  }

  lemma FlipKeepsGen(s: Volume, j: nat)
    requires Shape(s) && GenOk(s) && RebuildEnabled(s, Flip) && j in s.writers
    ensures WriterGen(ApplyRebuild(s, Flip), s.writers[j])
  {
    assert WriterGen(s, s.writers[j]) && WriterOk(s, s.writers[j]);
  }

  lemma OtherKeepsGen(s: Volume, l: RebuildStep, j: nat)
    requires Shape(s) && GenOk(s) && RebuildEnabled(s, l) && j in s.writers
    requires !l.Start? && !l.Flip? && !l.Drained?
    ensures WriterGen(ApplyRebuild(s, l), s.writers[j])
  {
    assert WriterGen(s, s.writers[j]);
  }

  lemma RebuildKeepsGen(s: Volume, l: RebuildStep)
    requires Shape(s) && GenOk(s) && RebuildEnabled(s, l)
    requires l.Start? ==> StaleBucketEmpty(s)
    ensures Shape(ApplyRebuild(s, l)) && GenOk(ApplyRebuild(s, l))
  {
    RebuildKeepsShape(s, l);
    RebuildKeepsSingle(s, l);
    RebuildKeepsWriters(s, l);
    RebuildKeepsWriterGens(s, l);
  }

  lemma RebuildKeepsWriterGens(s: Volume, l: RebuildStep)
    requires Shape(s) && GenOk(s) && RebuildEnabled(s, l)
    requires l.Start? ==> StaleBucketEmpty(s)
    ensures forall j :: j in s.writers ==> WriterGen(ApplyRebuild(s, l), s.writers[j])
  {
    forall j | j in s.writers ensures WriterGen(ApplyRebuild(s, l), s.writers[j]) {
      match l
      case Start(m) => StartKeepsGen(s, m, j);
      case Flip => FlipKeepsGen(s, j);
      case Drained => DrainedKeepsGen(s, j);
      case _ => OtherKeepsGen(s, l, j);
    }
  }

  lemma RebuildKeepsWriters(s: Volume, l: RebuildStep)
    requires Shape(s) && RebuildEnabled(s, l)
    ensures ApplyRebuild(s, l).writers == s.writers
  {
  }

  lemma StepKeepsGen(s: Volume, l: Step)
    requires Shape(s) && GenOk(s) && Enabled(s, l) && DrainedBeforeStart(s, l)
    ensures Shape(Apply(s, l)) && GenOk(Apply(s, l))
  {
    match l
    case Write(id, w) => WriteKeepsGen(s, id, w);
    case Member(m, e) => MemberKeepsGen(s, m, e);
    case Rebuild(r) => RebuildKeepsGen(s, r);
  }

  lemma MemberKeepsGen(s: Volume, m: nat, l: MemberStep)
    requires Shape(s) && GenOk(s) && MemberEnabled(s, m, l)
    ensures Shape(ApplyMember(s, m, l)) && GenOk(ApplyMember(s, m, l))
  {
    MemberKeepsShape(s, m, l);
    MemberKeepsSingle(s, m, l);
    var s' := ApplyMember(s, m, l);
    forall j | j in s'.writers ensures WriterGen(s', s'.writers[j]) {
      assert WriterGen(s, s.writers[j]);
    }
  }

  // ---------- runs ----------

  /** ls is a run from s; every step of it satisfies ok. */
  ghost predicate Run(s: Volume, ls: seq<Step>, ok: (Volume, Step) -> bool)
    requires Shape(s)
    decreases |ls|
  {
    ls == [] ||
    (Enabled(s, ls[0]) && ok(s, ls[0]) &&
     (StepKeepsShape(s, ls[0]); Run(Apply(s, ls[0]), ls[1..], ok)))
  }

  /** The state a run ends in. */
  ghost function After(s: Volume, ls: seq<Step>, ok: (Volume, Step) -> bool): (r: Volume)
    requires Shape(s) && Run(s, ls, ok)
    ensures Shape(r)
    decreases |ls|
  {
    if ls == [] then s
    else (StepKeepsShape(s, ls[0]); After(Apply(s, ls[0]), ls[1..], ok))
  }

  lemma {:induction false} RunKeepsGen(s: Volume, ls: seq<Step>, ok: (Volume, Step) -> bool)
    requires Shape(s) && GenOk(s) && Run(s, ls, ok)
    requires forall t, l :: Shape(t) && ok(t, l) ==> DrainedBeforeStart(t, l)
    ensures GenOk(After(s, ls, ok))
    decreases |ls|
  {
    if ls != [] {
      StepKeepsShape(s, ls[0]);
      StepKeepsGen(s, ls[0]);
      RunKeepsGen(Apply(s, ls[0]), ls[1..], ok);
    }
  }

  /** Sector x belongs to the chunk at the cursor. */
  predicate InChunk(s: Volume, x: nat)
    requires s.cursor <= s.geo.total
  {
    ChunkStart(s) <= x < ChunkStart(s) + ChunkLen(s)
  }

  /** No admitted, unended write touches the chunk being copied. */
  ghost predicate ChunkIsQuiet(s: Volume)
    requires Shape(s)
  {
    s.thread.Copying? ==>
      forall id, x :: id in s.writers && s.writers[id].phase.Admitted? && s.writers[id].Covers(x) ==>
        !InChunk(s, x)
  }

  lemma GenQuiet(s: Volume)
    requires Shape(s) && GenOk(s)
    ensures ChunkIsQuiet(s)
  {
    if s.thread.Copying? {
      ChunkSectors(s);
      forall id, x | id in s.writers && s.writers[id].phase.Admitted? && s.writers[id].Covers(x)
        ensures !InChunk(s, x)
      {
        assert WriterGen(s, s.writers[id]);
      }
    }
  }

  ghost predicate DrainedOnly(s: Volume, l: Step) {
    Shape(s) ==> DrainedBeforeStart(s, l)
  }

  /** In every interleaving of any number of writers with the rebuild thread, no
    * admitted write that has not ended overlaps the chunk while it is copied.
    * (InitShape: an initial state has the Shape that runs start from.) */
  lemma CopyExcludesWrites(s: Volume, ls: seq<Step>)
    requires Init(s) && Shape(s) && Run(s, ls, DrainedOnly)
    ensures ChunkIsQuiet(After(s, ls, DrainedOnly))
  {
    RunKeepsGen(s, ls, DrainedOnly);
    GenQuiet(After(s, ls, DrainedOnly));
  }
}
