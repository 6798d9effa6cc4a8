/** Every step keeps Shape: masks mirror the states, writers stay disjoint, and
  * the two generation counters count exactly the requests not yet ended. */
module MirrorShape {
  import opened Mirror

  lemma InitShape(s: Volume)
    requires Init(s)
    ensures Shape(s)
  {
    assert CountedIn(s.writers, 0) == {} && CountedIn(s.writers, 1) == {};
  }

  // ---------- the counters ----------

  function One(b: bool): int { if b then 1 else 0 }

  lemma CountSet(ws: map<nat, Writer>, id: nat, w: Writer, b: nat)
    ensures |CountedIn(ws[id := w], b)|
         == |CountedIn(ws, b)| - One(id in ws && ws[id].InBucket(b)) + One(w.InBucket(b))
  {
    var was, now := CountedIn(ws, b), CountedIn(ws[id := w], b);
    if w.InBucket(b) {
      assert now == was + {id};
    } else {
      assert now == was - {id};
    }
  }

  lemma CountDrop(ws: map<nat, Writer>, id: nat, b: nat)
    ensures |CountedIn(ws - {id}, b)| == |CountedIn(ws, b)| - One(id in ws && ws[id].InBucket(b))
  {
    assert CountedIn(ws - {id}, b) == CountedIn(ws, b) - {id};
  }

  lemma WriteKeepsRest(s: Volume, id: nat, l: WriteStep)
    requires Shape(s) && WriteEnabled(s, id, l)
    ensures var s' := ApplyWrite(s, id, l);
      s'.geo == s.geo && s'.present == s.present && s'.thread == s.thread
      && s'.target == s.target && s'.cursor == s.cursor && s'.window == s.window && s'.wgen == s.wgen
      && |s'.want| == |s.want|
    ensures var s' := ApplyWrite(s, id, l);
      (forall j :: j != id ==> (j in s'.writers <==> j in s.writers))
      && (forall j :: j != id && j in s.writers ==> s'.writers[j] == s.writers[j])
    ensures var s' := ApplyWrite(s, id, l);
      id in s'.writers && id in s.writers ==>
        s'.writers[id].pos == s.writers[id].pos && s'.writers[id].data == s.writers[id].data
  {
    WriteKeepsFields(s, id, l);
    WriteKeepsOthers(s, id, l);
  }

  lemma WriteKeepsFields(s: Volume, id: nat, l: WriteStep)
    requires Shape(s) && WriteEnabled(s, id, l)
    ensures var s' := ApplyWrite(s, id, l);
      s'.geo == s.geo && s'.present == s.present && s'.thread == s.thread
      && s'.target == s.target && s'.cursor == s.cursor && s'.window == s.window && s'.wgen == s.wgen
      && |s'.want| == |s.want|
  {
  }

  lemma WriteKeepsOthers(s: Volume, id: nat, l: WriteStep)
    requires Shape(s) && WriteEnabled(s, id, l)
    ensures var s' := ApplyWrite(s, id, l);
      (forall j :: j != id ==> (j in s'.writers <==> j in s.writers))
      && (forall j :: j != id && j in s.writers ==> s'.writers[j] == s.writers[j])
  {
    match l {
      case Recheck => GenBelow(s, id);
      case CheckWindow => GenBelow(s, id);
      case _ =>
    }
  }

  lemma WriteMovesCount(s: Volume, id: nat, l: WriteStep, b: nat)
    requires Shape(s) && WriteEnabled(s, id, l) && b < 2
    ensures |ApplyWrite(s, id, l).count| == 2 && CountMoved(s, ApplyWrite(s, id, l), id, b)
  {
    match l {
      case Count => GenBelow(s, id);
      case Recheck => GenBelow(s, id);
      case CheckWindow => GenBelow(s, id);
      case Settle => GenBelow(s, id);
      case _ =>
    }
  }

  lemma GenBelow(s: Volume, id: nat)
    requires Shape(s) && id in s.writers
    ensures var p := s.writers[id].phase;
      p.GenRead? || p.Counted? || p.Rechecked? || p.Admitted? ==> p.g < 2
  {
    assert WriterOk(s, s.writers[id]);
  }

  lemma WriteKeepsCount(s: Volume, id: nat, l: WriteStep)
    requires Shape(s) && WriteEnabled(s, id, l)
    ensures CountOk(ApplyWrite(s, id, l))
  {
    var s' := ApplyWrite(s, id, l);
    WriteKeepsRest(s, id, l);
    WriteMovesCount(s, id, l, 0);
    WriteMovesCount(s, id, l, 1);
    CountFollows(s, s', id);
  }

  lemma CountFollows(s: Volume, t: Volume, id: nat)
    requires CountOk(s) && |t.count| == 2
    requires forall j :: j != id ==> (j in t.writers <==> j in s.writers)
    requires forall j :: j != id && j in s.writers ==> t.writers[j] == s.writers[j]
    requires CountMoved(s, t, id, 0) && CountMoved(s, t, id, 1)
    ensures CountOk(t)
  {
    CountSame(s.writers, t.writers, id, 0);
    CountSame(s.writers, t.writers, id, 1);
  }

  /** Counter b follows write id in and out of bucket b. */
  predicate CountMoved(s: Volume, t: Volume, id: nat, b: nat)
    requires |s.count| == |t.count| == 2 && b < 2
  {
    t.count[b] == s.count[b] - One(id in s.writers && s.writers[id].InBucket(b))
      + One(id in t.writers && t.writers[id].InBucket(b))
  }

  lemma CountSame(ws: map<nat, Writer>, ws': map<nat, Writer>, id: nat, b: nat)
    requires forall j :: j != id ==> (j in ws' <==> j in ws)
    requires forall j :: j != id && j in ws ==> ws'[j] == ws[j]
    ensures |CountedIn(ws', b)|
         == |CountedIn(ws, b)| - One(id in ws && ws[id].InBucket(b)) + One(id in ws' && ws'[id].InBucket(b))
  {
    if id in ws' {
      assert ws' == ws[id := ws'[id]];
      CountSet(ws, id, ws'[id], b);
    } else {
      assert ws' == ws - {id};
      CountDrop(ws, id, b);
    }
  }

  // ---------- writers ----------

  lemma WriteKeepsWriter(s: Volume, id: nat, l: WriteStep)
    requires Shape(s) && WriteEnabled(s, id, l) && id in ApplyWrite(s, id, l).writers
    ensures var s' := ApplyWrite(s, id, l); |s'.present| == s'.geo.members && WriterOk(s', s'.writers[id])
  {
    match l {
      case Begin(pos, data) =>
      case _ => OwnKeepsWriter(s, id, l);
    }
  }

  lemma OwnKeepsWriter(s: Volume, id: nat, l: WriteStep)
    requires Shape(s) && WriteEnabled(s, id, l) && id in s.writers && id in ApplyWrite(s, id, l).writers
    ensures var s' := ApplyWrite(s, id, l); |s'.present| == s'.geo.members && WriterOk(s', s'.writers[id])
  {
    assert WriterOk(s, s.writers[id]);
    if l.Land? || l.Ack? { MemberKeepsWriter(s, id, l); }
  }

  lemma MemberKeepsWriter(s: Volume, id: nat, l: WriteStep)
    requires Shape(s) && WriteEnabled(s, id, l) && id in s.writers && (l.Land? || l.Ack?)
    ensures var s' := ApplyWrite(s, id, l);
      id in s'.writers && |s'.present| == s'.geo.members && WriterOk(s', s'.writers[id])
  {
    assert WriterOk(s, s.writers[id]);
  }

  lemma WriteKeepsWriters(s: Volume, id: nat, l: WriteStep)
    requires Shape(s) && WriteEnabled(s, id, l)
    ensures WritersOk(ApplyWrite(s, id, l))
  {
    var s' := ApplyWrite(s, id, l);
    WriteKeepsRest(s, id, l);
    forall j | j in s'.writers ensures WriterOk(s', s'.writers[j]) {
      if j == id {
        WriteKeepsWriter(s, id, l);
      } else {
        assert WriterOk(s, s.writers[j]);
      }
    }
    forall i, j | i in s'.writers && j in s'.writers && i != j
      ensures !s'.writers[i].Overlaps(s'.writers[j].pos, |s'.writers[j].data|)
    {
      if l.Begin? && j == id { assert !s.writers[i].Overlaps(l.pos, |l.data|); }
      if l.Begin? && i == id { assert !s.writers[j].Overlaps(l.pos, |l.data|); }
    }
  }

  lemma LandKeepsMembers(s: Volume, id: nat, m: nat, x: nat)
    requires Shape(s) && WriteEnabled(s, id, Land(m, x))
    ensures MembersOk(ApplyWrite(s, id, Land(m, x)))
  {
    assert WriterOk(s, s.writers[id]);
  }

  lemma FailKeepsMembers(s: Volume, ms: set<nat>)
    requires s.geo.Sound() && MembersOk(s)
    ensures MembersOk(MarkFailed(s, ms))
  {
  }

  lemma WriteKeepsMembers(s: Volume, id: nat, l: WriteStep)
    requires Shape(s) && WriteEnabled(s, id, l)
    ensures MembersOk(ApplyWrite(s, id, l))
  {
    match l {
      case Land(m, x) => LandKeepsMembers(s, id, m, x);
      case Finish => FailKeepsMembers(s, s.writers[id].err);
      case _ => WriteKeepsMasks(s, id, l);
    }
  }

  lemma WriteKeepsMasks(s: Volume, id: nat, l: WriteStep)
    requires Shape(s) && WriteEnabled(s, id, l) && !l.Land? && !l.Finish?
    ensures MembersOk(ApplyWrite(s, id, l))
  {
    var s' := ApplyWrite(s, id, l);
    assert s'.media == s.media && s'.st == s.st && s'.live == s.live && s'.wr == s.wr;
    WriteKeepsRest(s, id, l);
  }

  lemma WriteKeepsShape(s: Volume, id: nat, l: WriteStep)
    requires Shape(s) && WriteEnabled(s, id, l)
    ensures Shape(ApplyWrite(s, id, l))
  {
    WriteKeepsMembers(s, id, l);
    WriteKeepsRest(s, id, l);
    WriteKeepsWriters(s, id, l);
    WriteKeepsCount(s, id, l);
  }

  // ---------- members ----------

  lemma MemberKeepsMembers(s: Volume, m: nat, l: MemberStep)
    requires Shape(s) && MemberEnabled(s, m, l)
    ensures var s' := ApplyMember(s, m, l); MembersOk(s') && ThreadOk(s')
  {
  }

  lemma MemberKeepsShape(s: Volume, m: nat, l: MemberStep)
    requires Shape(s) && MemberEnabled(s, m, l)
    ensures Shape(ApplyMember(s, m, l))
  {
    MemberKeepsMembers(s, m, l);
    var s' := ApplyMember(s, m, l);
    forall j | j in s'.writers ensures WriterOk(s', s'.writers[j]) {
      assert WriterOk(s, s.writers[j]);
    }
  }

  /** What happens to a member takes it out of both masks, and leaves every other alone. */
  lemma MemberAlone(s: Volume, m: nat, l: MemberStep)
    requires Shape(s) && MemberEnabled(s, m, l)
    ensures var t := ApplyMember(s, m, l);
      && m !in t.live && m !in t.wr && t.live == s.live - {m} && t.wr == s.wr - {m}
      && |t.st| == |s.st| && |t.present| == |s.present| && |t.media| == |s.media|
      && forall i :: 0 <= i < s.geo.members && i != m ==>
           t.st[i] == s.st[i] && t.present[i] == s.present[i] && t.media[i] == s.media[i]
  {
  }

  /** The state it is left in: a failure counts only while the member takes part, a removed
    * member has failed, a detached one is gone, and one that comes back is parked. */
  lemma MemberBecomes(s: Volume, m: nat, l: MemberStep)
    requires Shape(s) && MemberEnabled(s, m, l)
    ensures Becomes(s, m, l, ApplyMember(s, m, l))
  {
    assert s.present[m] || s.st[m] == Failed;
  }

  predicate Becomes(s: Volume, m: nat, l: MemberStep, t: Volume) {
    && m < |s.st| && m < |t.st| && m < |t.present| && m < |t.media|
    && (l.Fail? ==> t.st[m] == (if s.st[m] == NeedsResync then NeedsResync else Failed) && t.present == s.present)
    && (l.Remove? ==> t.st[m] == Failed && t.present == s.present)
    && (l.Detach? ==> t.st[m] == Failed && !t.present[m])
    && (l.Readd? ==> t.st[m] == NeedsResync && t.present[m] && t.media[m] == l.content)
    && (l.Reset? ==> t.st[m] == NeedsResync && t.present[m] && t.media == s.media)
  }

  /** A member that has come back, by a re-plug or a reset, can be rebuilt at once if no
    * rebuild runs and some live copy holds what it stores. */
  lemma ReturnedCanBeRebuilt(s: Volume, m: nat, l: MemberStep, v: nat)
    requires Shape(s) && MemberEnabled(s, m, l) && (l.Readd? || l.Reset?) && s.thread.Idle?
    requires CanServe(ApplyMember(s, m, l), m, v)
    ensures Shape(ApplyMember(s, m, l)) && RebuildEnabled(ApplyMember(s, m, l), Start(m))
  {
    MemberKeepsShape(s, m, l);
  }

  // ---------- the rebuild ----------

  /** A chunk is as long as the window, the stripe and the member allow. */
  lemma ChunkIsLongest(s: Volume)
    requires s.cursor <= s.geo.total
    ensures var n := ChunkLen(s);
      && n <= 256 && n <= s.geo.room(s.cursor) && s.cursor + n <= s.geo.total
      && (n == 256 || n == s.geo.room(s.cursor) || s.cursor + n == s.geo.total)
  {
  }

  lemma ChunkSector(geo: Layout, m: nat, p: nat, j: nat)
    requires geo.Sound() && m < geo.members && j < geo.room(p) && p + j < geo.total
    ensures geo.Holds(geo.logical(geo.colOf(m), p) + j, geo.colOf(m), p + j)
  {
    assert geo.Contiguous(geo.colOf(m), p, j);
    assert geo.Holds(geo.logical(geo.colOf(m), p + j), geo.colOf(m), p + j);
  }

  lemma ChunkSectors(s: Volume)
    requires s.geo.Sound() && s.target < s.geo.members && s.cursor < s.geo.total
    ensures 0 < ChunkLen(s) <= XFER && s.cursor + ChunkLen(s) <= s.geo.total
    ensures forall j :: 0 <= j < ChunkLen(s) ==> ChunkAt(s, j)
  {
    forall j | 0 <= j < ChunkLen(s) ensures ChunkAt(s, j) {
      ChunkSector(s.geo, s.target, s.cursor, j);
    }
  }

  lemma StartKeepsMembers(s: Volume, m: nat)
    requires Shape(s) && RebuildEnabled(s, Start(m))
    ensures var s' := ApplyRebuild(s, Start(m)); MembersOk(s') && ThreadOk(s')
  {
  }

  lemma ConcludeKeepsMembers(s: Volume)
    requires Shape(s) && RebuildEnabled(s, Conclude)
    ensures var s' := ApplyRebuild(s, Conclude); MembersOk(s') && ThreadOk(s')
  {
  }

  lemma CopyWriteKeepsMembers(s: Volume)
    requires Shape(s) && RebuildEnabled(s, CopyWrite)
    ensures var s' := ApplyRebuild(s, CopyWrite); MembersOk(s') && ThreadOk(s')
  {
    ChunkSectors(s);
    var s' := ApplyRebuild(s, CopyWrite);
    assert s'.st == s.st && s'.live == s.live && s'.wr == s.wr;
  }

  lemma ThreadKeepsMembers(s: Volume, l: RebuildStep)
    requires Shape(s) && RebuildEnabled(s, l) && !l.Start? && !l.Conclude? && !l.CopyWrite?
    ensures var s' := ApplyRebuild(s, l); MembersOk(s') && ThreadOk(s')
  {
    if s.cursor < s.geo.total { ChunkSectors(s); }
    var s' := ApplyRebuild(s, l);
    assert s'.st == s.st && s'.live == s.live && s'.wr == s.wr && s'.media == s.media;
  }

  lemma RebuildKeepsMembers(s: Volume, l: RebuildStep)
    requires Shape(s) && RebuildEnabled(s, l)
    ensures var s' := ApplyRebuild(s, l); MembersOk(s') && ThreadOk(s')
  {
    match l {
      case Start(m) => StartKeepsMembers(s, m);
      case Conclude => ConcludeKeepsMembers(s);
      case CopyWrite => CopyWriteKeepsMembers(s);
      case _ => ThreadKeepsMembers(s, l);
    }
  }

  lemma RebuildKeepsShape(s: Volume, l: RebuildStep)
    requires Shape(s) && RebuildEnabled(s, l)
    ensures Shape(ApplyRebuild(s, l))
  {
    RebuildKeepsMembers(s, l);
    RebuildLeavesWriters(s, l);
    WritersStay(s, ApplyRebuild(s, l));
  }

  lemma RebuildLeavesWriters(s: Volume, l: RebuildStep)
    requires Shape(s) && RebuildEnabled(s, l)
    ensures var s' := ApplyRebuild(s, l);
      s'.writers == s.writers && s'.count == s.count && s'.present == s.present && s'.geo == s.geo && s'.want == s.want
  {
  }

  lemma WritersStay(s: Volume, t: Volume)
    requires s.geo.Sound() && |s.present| == s.geo.members && WritersOk(s) && CountOk(s)
    requires t.writers == s.writers && t.count == s.count && t.present == s.present && t.geo == s.geo
    ensures WritersOk(t) && CountOk(t)
  {
    forall j | j in t.writers ensures WriterOk(t, t.writers[j]) {
      assert WriterOk(s, s.writers[j]);
    }
  }

  lemma StepKeepsShape(s: Volume, l: Step)
    requires Shape(s) && Enabled(s, l)
    ensures Shape(Apply(s, l))
  {
    match l
    case Write(id, w) => WriteKeepsShape(s, id, w);
    case Member(m, e) => MemberKeepsShape(s, m, e);
    case Rebuild(r) => RebuildKeepsShape(s, r);
  }
}
