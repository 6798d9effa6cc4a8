/** A rebuild that nobody disturbs completes: from any state in which a member is parked
  * and a live copy holds what it stores, there is a run that makes it live, and equal to
  * that copy. */
module MirrorProgress {
  import opened Common
  import opened Mirror
  import opened MirrorShape
  import opened MirrorExclusion

  predicate Any(s: Volume, l: Step) { true }

  /** t can follow s. */
  ghost predicate Leads(s: Volume, t: Volume) {
    Shape(s) && exists ls :: Run(s, ls, Any) && After(s, ls, Any) == t
  }

  lemma Here(s: Volume)
    requires Shape(s)
    ensures Leads(s, s)
  {
    assert Run(s, [], Any) && After(s, [], Any) == s;
  }

  /** A step first. */
  lemma Then(s: Volume, r: RebuildStep, t: Volume, u: Volume)
    requires Shape(s) && RebuildEnabled(s, r) && t == ApplyRebuild(s, r) && Leads(t, u)
    ensures Leads(s, u)
  {
    var more :| Run(t, more, Any) && After(t, more, Any) == u;
    var ls := [Rebuild(r)] + more;
    assert ls[0] == Rebuild(r) && ls[1..] == more;
    StepKeepsShape(s, Rebuild(r));
    assert Run(s, ls, Any) && After(s, ls, Any) == u;
  }

  /** Member m is being rebuilt from v, and no request is under way. */
  ghost predicate Alone(s: Volume, m: nat, v: nat) {
    && Shape(s) && m < s.geo.members && s.target == m && s.st[m] == Resyncing && s.present[m]
    && PickSurvivor(s, m, 0) == Some(v) && s.writers == map[] && s.count == [0, 0]
  }

  /** Below p member m holds what v holds. */
  predicate SameBelow(media: seq<seq<Value>>, m: nat, v: nat, p: nat) {
    m < |media| && v < |media| && p <= |media[m]| && p <= |media[v]| && media[m][..p] == media[v][..p]
  }

  /** Member m is live and equal to v, and nothing else has changed on any member. */
  predicate Rebuilt(media: seq<seq<Value>>, m: nat, v: nat, u: Volume) {
    m < |media| && v < |media| && m in u.live && m < |u.st| && u.st[m] == Live && u.media == media[m := media[v]]
  }

  /** The choice looks at the live mask, the registry and the layout. */
  lemma {:induction false} PickSame(s: Volume, t: Volume, m: nat, i: nat)
    requires |s.present| == s.geo.members && t.geo == s.geo && t.present == s.present
    requires forall v :: v != m ==> (v in s.live <==> v in t.live)
    ensures PickSurvivor(t, m, i) == PickSurvivor(s, m, i)
    decreases s.geo.members - i
  {
    if i < s.geo.members { PickSame(s, t, m, i + 1); }
  }

  lemma StaysAlone(s: Volume, m: nat, v: nat, r: RebuildStep)
    requires Alone(s, m, v) && RebuildEnabled(s, r) && !r.Start? && !r.Conclude?
    ensures Alone(ApplyRebuild(s, r), m, v)
  {
    StepKeepsShape(s, Rebuild(r));
    PickSame(s, ApplyRebuild(s, r), m, 0);
  }

  /** The head of the copy loop. */
  lemma {:induction false} FromTop(s: Volume, m: nat, v: nat) returns (u: Volume)
    requires Alone(s, m, v) && s.thread.Top? && SameBelow(s.media, m, v, s.cursor)
    ensures Leads(s, u) && Rebuilt(s.media, m, v, u)
    decreases s.geo.total - s.cursor, 3, 0
  {
    var t := ApplyRebuild(s, Pick);
    StaysAlone(s, m, v, Pick);
    if s.cursor >= s.geo.total {
      u := FromEnd(t, m, v);
    } else {
      var p := ApplyRebuild(t, Flip);
      StaysAlone(t, m, v, Flip);
      var q := ApplyRebuild(p, Drained);
      StaysAlone(p, m, v, Drained);
      assert q.media[v][q.cursor..q.cursor] == [];
      u := FromReading(q, m, v);
      Then(p, Drained, q, u);
      Then(t, Flip, p, u);
    }
    Then(s, Pick, t, u);
  }

  lemma FromEnd(s: Volume, m: nat, v: nat) returns (u: Volume)
    requires Alone(s, m, v) && s.thread == Ending(true) && SameBelow(s.media, m, v, s.geo.total)
    ensures Leads(s, u) && Rebuilt(s.media, m, v, u)
  {
    u := ApplyRebuild(s, Conclude);
    StepKeepsShape(s, Rebuild(Conclude));
    Here(u);
    Then(s, Conclude, u, u);
    WholeMember(s.media, m, v, s.geo.total);
  }

  lemma WholeMember(media: seq<seq<Value>>, m: nat, v: nat, n: nat)
    requires SameBelow(media, m, v, n) && |media[m]| == |media[v]| == n
    ensures media == media[m := media[v]]
  {
    assert media[m][..n] == media[m] && media[v][..n] == media[v];
  }

  /** The chunk is being read. */
  lemma {:induction false} FromReading(s: Volume, m: nat, v: nat) returns (u: Volume)
    requires Alone(s, m, v) && s.thread.Copying? && s.thread.srv == v && s.thread.k == 0
    requires SameBelow(s.media, m, v, s.cursor) && s.cursor + |s.thread.buf| <= |s.media[v]|
    requires s.thread.buf == s.media[v][s.cursor..s.cursor + |s.thread.buf|]
    ensures Leads(s, u) && Rebuilt(s.media, m, v, u)
    decreases s.geo.total - s.cursor, 2, ChunkLen(s) - |s.thread.buf|
  {
    if |s.thread.buf| < ChunkLen(s) {
      ChunkIsLongest(s);
      var t := ApplyRebuild(s, CopyRead);
      StaysAlone(s, m, v, CopyRead);
      var j := s.cursor + |s.thread.buf|;
      assert s.media[v][s.cursor..j + 1] == s.media[v][s.cursor..j] + [s.media[v][j]];
      u := FromReading(t, m, v);
      Then(s, CopyRead, t, u);
    } else {
      u := FromWriting(s, m, v);
    }
  }

  /** The chunk is being written. */
  lemma {:induction false} FromWriting(s: Volume, m: nat, v: nat) returns (u: Volume)
    requires Alone(s, m, v) && s.thread.Copying? && s.thread.srv == v && |s.thread.buf| == ChunkLen(s)
    requires s.cursor + ChunkLen(s) <= |s.media[v]| && s.thread.buf == s.media[v][s.cursor..s.cursor + ChunkLen(s)]
    requires SameBelow(s.media, m, v, s.cursor + s.thread.k)
    ensures Leads(s, u) && Rebuilt(s.media, m, v, u)
    decreases s.geo.total - s.cursor, 1, ChunkLen(s) - s.thread.k
  {
    if s.thread.k < ChunkLen(s) {
      ChunkIsLongest(s);
      var t := ApplyRebuild(s, CopyWrite);
      StaysAlone(s, m, v, CopyWrite);
      OneMore(s.media, m, v, s.cursor + s.thread.k, t.media, s.thread.buf[s.thread.k]);
      u := FromWriting(t, m, v);
      Then(s, CopyWrite, t, u);
    } else {
      ChunkSectors(s);
      var t := ApplyRebuild(s, Advance);
      StaysAlone(s, m, v, Advance);
      u := FromTop(t, m, v);
      Then(s, Advance, t, u);
    }
  }

  lemma OneMore(media: seq<seq<Value>>, m: nat, v: nat, p: nat, media': seq<seq<Value>>, x: Value)
    requires SameBelow(media, m, v, p) && m != v && p < |media[m]| && p < |media[v]| && x == media[v][p]
    requires media' == media[m := media[m][p := x]]
    ensures SameBelow(media', m, v, p + 1) && media'[v] == media[v]
    ensures media'[m := media'[v]] == media[m := media[v]]
  {
    assert media'[m][..p + 1] == media[m][..p] + [x];
    assert media[v][..p + 1] == media[v][..p] + [media[v][p]];
  }

  /** A member that is parked, with a live copy of what it stores and nothing else going
    * on, can be rebuilt: some run makes it live with the content of that copy, and leaves
    * every other member as it is. */
  lemma UndisturbedRebuildCompletes(s: Volume, m: nat)
    requires Shape(s) && RebuildEnabled(s, Start(m)) && s.writers == map[] && s.count == [0, 0]
    ensures exists v, u :: CanServe(s, m, v) && Leads(s, u) && Rebuilt(s.media, m, v, u)
  {
    var v := PickSurvivor(s, m, 0).value;
    var t := ApplyRebuild(s, Start(m));
    StepKeepsShape(s, Rebuild(Start(m)));
    PickSame(s, t, m, 0);
    assert t.media[m][..0] == t.media[v][..0];
    var u := FromTop(t, m, v);
    Then(s, Start(m), t, u);
  }
}
