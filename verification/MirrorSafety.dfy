/** What the rebuild protocol guarantees over whole runs. */
module MirrorSafety {
  import opened Mirror
  import opened MirrorShape
  import opened MirrorExclusion
  import opened MirrorData

  ghost predicate CarefulStep(s: Volume, l: Step) {
    Shape(s) ==> Careful(s, l)
  }

  /** A run under the three schedule hypotheses of Careful. */
  ghost predicate CarefulRun(s: Volume, ls: seq<Step>) {
    Init(s) && Shape(s) && Run(s, ls, CarefulStep)
  }

  ghost function Final(s: Volume, ls: seq<Step>): Volume
    requires CarefulRun(s, ls)
  {
    After(s, ls, CarefulStep)
  }

  /** No request at all covers sector x. */
  ghost predicate NoWriter(s: Volume, x: nat) {
    forall id :: id in s.writers ==> !s.writers[id].Covers(x)
  }

  /** An answered request has put its data into want. */
  ghost predicate WantHas(want: seq<Value>, w: Writer) {
    w.phase.Settled? ==> forall x: nat :: w.Covers(x) ==> x < |want| && want[x] == w.data[x - w.pos]
  }

  ghost predicate SettledOk(s: Volume)
    requires Shape(s)
  {
    forall id :: id in s.writers ==> WantHas(s.want, s.writers[id])
  }

  lemma SettleKeepsWant(s: Volume, id: nat, j: nat)
    requires Shape(s) && SettledOk(s) && WriteEnabled(s, id, Settle) && j in s.writers
    ensures var s' := ApplyWrite(s, id, Settle); WantHas(s'.want, s'.writers[j])
  {
    assert WriterOk(s, s.writers[id]) && WriterOk(s, s.writers[j]) && WantHas(s.want, s.writers[j]);
    if j != id { assert !s.writers[id].Overlaps(s.writers[j].pos, |s.writers[j].data|); }
  }

  lemma WriteKeepsSettled(s: Volume, id: nat, l: WriteStep)
    requires Shape(s) && SettledOk(s) && WriteEnabled(s, id, l) && Shape(ApplyWrite(s, id, l))
    ensures SettledOk(ApplyWrite(s, id, l))
  {
    var s' := ApplyWrite(s, id, l);
    WriteKeepsRest(s, id, l);
    forall j | j in s'.writers ensures WantHas(s'.want, s'.writers[j]) {
      if j in s.writers { assert WantHas(s.want, s.writers[j]); }
      if l.Settle? { SettleKeepsWant(s, id, j); }
    }
  }

  lemma StepKeepsSettled(s: Volume, l: Step)
    requires Shape(s) && SettledOk(s) && Enabled(s, l) && Shape(Apply(s, l))
    ensures SettledOk(Apply(s, l))
  {
    match l
    case Write(id, w) => WriteKeepsSettled(s, id, w);
    case Member(m, e) => MemberKeepsWant(s, m, e);
    case Rebuild(r) => RebuildKeepsWant(s, r);
  }

  lemma MemberKeepsWant(s: Volume, m: nat, e: MemberStep)
    requires Shape(s) && MemberEnabled(s, m, e)
    ensures var s' := ApplyMember(s, m, e);
      s'.want == s.want && s'.writers == s.writers && s'.geo == s.geo && s'.live <= s.live
  {
  }

  lemma RebuildKeepsWant(s: Volume, r: RebuildStep)
    requires Shape(s) && RebuildEnabled(s, r)
    ensures var s' := ApplyRebuild(s, r);
      s'.want == s.want && s'.writers == s.writers && s'.geo == s.geo
      && (!r.Conclude? ==> s'.live <= s.live)
  {
  }

  ghost predicate Inv(s: Volume) {
    Shape(s) && GenOk(s) && DataOk(s) && SettledOk(s)
  }

  lemma StepKeepsInv(s: Volume, l: Step)
    requires Inv(s) && Enabled(s, l) && Careful(s, l)
    ensures Inv(Apply(s, l))
  {
    StepKeepsShape(s, l);
    StepKeepsGen(s, l);
    StepKeepsData(s, l);
    StepKeepsSettled(s, l);
  }

  lemma {:induction false} RunKeepsInv(s: Volume, ls: seq<Step>)
    requires Inv(s) && Run(s, ls, CarefulStep)
    ensures Inv(After(s, ls, CarefulStep))
    decreases |ls|
  {
    if ls != [] {
      StepKeepsInv(s, ls[0]);
      RunKeepsInv(Apply(s, ls[0]), ls[1..]);
    }
  }

  lemma CarefulRunInv(s: Volume, ls: seq<Step>)
    requires CarefulRun(s, ls)
    ensures Inv(Final(s, ls))
  {
    InitData(s);
    RunKeepsInv(s, ls);
  }

  /** In every reachable state, every live copy of a sector with no write in
    * flight holds the last write; so all live copies agree. */
  lemma LiveCopiesHoldLastWrite(s: Volume, ls: seq<Step>, m: nat, x: nat)
    requires CarefulRun(s, ls)
    ensures var t := Final(s, ls);
      m in t.live && x < t.geo.capacity && t.geo.col(x) == t.geo.colOf(m) && NoWriter(t, x) ==>
        t.media[m][t.geo.at(x)] == t.want[x]
  {
    CarefulRunInv(s, ls);
    var t := Final(s, ls);
    if m in t.live && x < t.geo.capacity && t.geo.col(x) == t.geo.colOf(m) && NoWriter(t, x) {
      assert CopyOk(t, m, x) && Quiet(t, m, x);
    }
  }

  /** A rebuild whose cursor reached the total leaves the target equal to the
    * last write, and to every live copy, on every sector of its column that no
    * request covers: promotion to LIVE is safe. */
  lemma CompleteRebuildIsEqual(s: Volume, ls: seq<Step>, m: nat, x: nat)
    requires CarefulRun(s, ls)
    ensures var t := Final(s, ls);
      t.thread == Ending(true) && t.st[t.target] == Resyncing
      && x < t.geo.capacity && t.geo.col(x) == t.geo.colOf(t.target) && NoWriter(t, x) ==>
        t.media[t.target][t.geo.at(x)] == t.want[x]
        && (m in t.live && t.geo.colOf(m) == t.geo.colOf(t.target) ==>
              t.media[m][t.geo.at(x)] == t.media[t.target][t.geo.at(x)])
  {
    CarefulRunInv(s, ls);
    var t := Final(s, ls);
    if t.thread == Ending(true) && t.st[t.target] == Resyncing
      && x < t.geo.capacity && t.geo.col(x) == t.geo.colOf(t.target) && NoWriter(t, x)
    {
      assert t.geo.at(x) < t.cursor;
      assert CopyOk(t, t.target, x) && Quiet(t, t.target, x);
      if m in t.live && t.geo.colOf(m) == t.geo.colOf(t.target) {
        assert CopyOk(t, m, x) && Quiet(t, m, x);
      }
    }
  }

  // ---------- an ended write stays readable ----------

  /** No step of ls dispatches a write that covers x. */
  ghost predicate LeavesAlone(ls: seq<Step>, x: nat) {
    forall i :: 0 <= i < |ls| && ls[i].Write? && ls[i].w.Begin? ==>
      !(ls[i].w.pos <= x < ls[i].w.pos + |ls[i].w.data|)
  }

  lemma WriteLeavesAlone(s: Volume, id: nat, w: WriteStep, x: nat)
    requires Shape(s) && WriteEnabled(s, id, w) && NoWriter(s, x) && x < |s.want|
    requires w.Begin? ==> !(w.pos <= x < w.pos + |w.data|)
    ensures var t := ApplyWrite(s, id, w); NoWriter(t, x) && x < |t.want| && t.want[x] == s.want[x]
  {
    WriteKeepsRest(s, id, w);
    if id in s.writers { assert WriterOk(s, s.writers[id]); }
  }

  lemma StepLeavesAlone(s: Volume, l: Step, x: nat)
    requires Shape(s) && Enabled(s, l) && NoWriter(s, x) && LeavesAlone([l], x) && x < |s.want|
    ensures var t := Apply(s, l); NoWriter(t, x) && x < |t.want| && t.want[x] == s.want[x]
  {
    assert [l][0] == l;
    if l.Write? { WriteLeavesAlone(s, l.id, l.w, x); }
  }

  lemma {:induction false} RunLeavesAlone(s: Volume, ls: seq<Step>, x: nat)
    requires Inv(s) && Run(s, ls, CarefulStep) && NoWriter(s, x) && LeavesAlone(ls, x) && x < |s.want|
    ensures var t := After(s, ls, CarefulStep); NoWriter(t, x) && x < |t.want| && t.want[x] == s.want[x]
    decreases |ls|
  {
    if ls != [] {
      assert LeavesAlone([ls[0]], x);
      StepKeepsInv(s, ls[0]);
      StepLeavesAlone(s, ls[0], x);
      assert LeavesAlone(ls[1..], x);
      RunLeavesAlone(Apply(s, ls[0]), ls[1..], x);
    }
  }

  /** However members fail, reset, leave, return and rebuild after a write has
    * ended, every copy that is live then still returns the write's data. */
  lemma EndedWriteSurvives(s: Volume, before: seq<Step>, id: nat, mid: Volume, after: seq<Step>, m: nat, x: nat)
    requires CarefulRun(s, before) && Ends(Final(s, before), id, x, mid)
    requires Run(mid, after, CarefulStep) && LeavesAlone(after, x)
    ensures
      var w := Final(s, before).writers[id];
      var t := After(mid, after, CarefulStep);
      m in t.live && t.geo.col(x) == t.geo.colOf(m) ==>
        t.geo.at(x) < |t.media[m]| && t.media[m][t.geo.at(x)] == w.data[x - w.pos]
  {
    CarefulRunInv(s, before);
    FinishLeaves(Final(s, before), id, x);
    LiveHoldsAfter(mid, after, m, x);
  }

  /** The write id, which covers x, ends in u, and the volume is then mid. */
  ghost predicate Ends(u: Volume, id: nat, x: nat, mid: Volume)
    requires Shape(u)
  {
    Enabled(u, Write(id, Finish)) && u.writers[id].Covers(x) && mid == Apply(u, Write(id, Finish)) && Shape(mid)
  }

  lemma LiveHoldsAfter(mid: Volume, after: seq<Step>, m: nat, x: nat)
    requires Inv(mid) && Run(mid, after, CarefulStep) && NoWriter(mid, x) && LeavesAlone(after, x)
    requires x < |mid.want| && x < mid.geo.capacity
    ensures var t := After(mid, after, CarefulStep);
      m in t.live && t.geo.col(x) == t.geo.colOf(m) ==>
        t.geo.at(x) < |t.media[m]| && t.media[m][t.geo.at(x)] == mid.want[x]
  {
    RunKeepsInv(mid, after);
    RunLeavesAlone(mid, after, x);
    LayoutNeverChanges(mid, after);
    var t := After(mid, after, CarefulStep);
    if m in t.live && t.geo.col(x) == t.geo.colOf(m) {
      assert CopyOk(t, m, x) && Quiet(t, m, x);
    }
  }

  lemma FinishLeaves(u: Volume, id: nat, x: nat)
    requires Inv(u) && Enabled(u, Write(id, Finish)) && u.writers[id].Covers(x)
    ensures var mid := Apply(u, Write(id, Finish));
      Inv(mid) && NoWriter(mid, x) && x < |mid.want| && x < mid.geo.capacity && mid.geo == u.geo
      && mid.want[x] == u.writers[id].data[x - u.writers[id].pos]
  {
    var mid := Apply(u, Write(id, Finish));
    StepKeepsInv(u, Write(id, Finish));
    assert WriterOk(u, u.writers[id]) && WantHas(u.want, u.writers[id]);
    forall j | j in mid.writers ensures !mid.writers[j].Covers(x) {
      assert !u.writers[j].Overlaps(u.writers[id].pos, |u.writers[id].data|);
    }
  }

  lemma {:induction false} LayoutNeverChanges(s: Volume, ls: seq<Step>)
    requires Inv(s) && Run(s, ls, CarefulStep)
    ensures After(s, ls, CarefulStep).geo == s.geo
    decreases |ls|
  {
    if ls != [] {
      StepKeepsInv(s, ls[0]);
      LayoutNeverChanges(Apply(s, ls[0]), ls[1..]);
    }
  }

  // ---------- the only way back to LIVE ----------

  /** Step l promotes member m at the end of a complete rebuild. */
  ghost predicate Promotes(s: Volume, l: Step, m: nat) {
    l == Rebuild(Conclude) && s.thread == Ending(true) && s.target == m && s.cursor == s.geo.total
  }

  lemma OnlyPromotionMakesLive(s: Volume, l: Step, m: nat)
    requires Shape(s) && Enabled(s, l) && m < s.geo.members
    requires s.st[m] != Live && m in Apply(s, l).live
    ensures Promotes(s, l, m)
  {
    match l
    case Write(id, w) => WriteLive(s, id, w);
    case Member(i, e) => MemberKeepsWant(s, i, e);
    case Rebuild(r) => RebuildKeepsWant(s, r);
  }

  lemma WriteLive(s: Volume, id: nat, w: WriteStep)
    requires Shape(s) && WriteEnabled(s, id, w)
    ensures ApplyWrite(s, id, w).live <= s.live
  {
  }

  /** After the first i steps of a run from s comes Promotes. */
  ghost predicate PromotedAt(s: Volume, ls: seq<Step>, ok: (Volume, Step) -> bool, i: nat, m: nat)
    requires Shape(s)
  {
    i < |ls| && Run(s, ls[..i], ok) && Promotes(After(s, ls[..i], ok), ls[i], m)
  }

  lemma PromotedLater(s: Volume, ls: seq<Step>, ok: (Volume, Step) -> bool, i: nat, m: nat)
    requires Shape(s) && ls != [] && Enabled(s, ls[0]) && ok(s, ls[0]) && Shape(Apply(s, ls[0]))
    requires PromotedAt(Apply(s, ls[0]), ls[1..], ok, i, m)
    ensures PromotedAt(s, ls, ok, i + 1, m)
  {
    var p := ls[..i + 1];
    assert p[0] == ls[0] && p[1..] == ls[1..][..i];
  }

  /** Whatever the schedule, a member that is not LIVE and later is has been
    * promoted in between by a rebuild whose cursor reached the total. */
  lemma {:induction false} LiveOnlyThroughRebuild(s: Volume, ls: seq<Step>, ok: (Volume, Step) -> bool, m: nat)
    requires Shape(s) && Run(s, ls, ok) && m < s.geo.members
    requires s.st[m] != Live && m in After(s, ls, ok).live
    ensures exists i: nat :: PromotedAt(s, ls, ok, i, m)
    decreases |ls|
  {
    assert ls != [];
    var t := Apply(s, ls[0]);
    StepKeepsShape(s, ls[0]);
    if m in t.live {
      OnlyPromotionMakesLive(s, ls[0], m);
      assert ls[..0] == [];
      assert PromotedAt(s, ls, ok, 0, m);
    } else {
      StepKeepsLayout(s, ls[0]);
      LiveOnlyThroughRebuild(t, ls[1..], ok, m);
      var i: nat :| PromotedAt(t, ls[1..], ok, i, m);
      PromotedLater(s, ls, ok, i, m);
    }
  }

  lemma StepKeepsLayout(s: Volume, l: Step)
    requires Shape(s) && Enabled(s, l)
    ensures Apply(s, l).geo == s.geo
  {
  }
}
