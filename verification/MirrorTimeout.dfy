/** A write that the timeout handler ends itself, as the volume sees it: the count is
  * given back, and nobody is marked failed. */
module MirrorTimeout {
  import opened Common
  import opened Mirror
  import opened MirrorShape
  import opened MirrorExclusion
  import opened MirrorData
  import opened MirrorSafety
  import R = MirrorRaces

  /** An admitted write, not yet settled, ended by the handler with an error of its own.
    * Nothing is acknowledged, so want stays. */
  function HandlerEnd(s: Volume, id: nat): Volume
    requires id in s.writers && s.writers[id].phase.Admitted? && s.writers[id].phase.g < |s.count|
  {
    AddCount(s.(writers := s.writers - {id}), s.writers[id].phase.g, -1)
  }

  /** Both members are live copies of sector x, which the write covers; k took the write
    * and m answered with an error. */
  ghost predicate OneErred(s: Volume, w: Writer, k: nat, m: nat, x: nat)
    requires Shape(s)
  {
    && w.Covers(x) && x < s.geo.capacity && s.geo.colOf(k) == s.geo.colOf(m) == s.geo.col(x)
    && k in s.live && m in s.live && k in w.acked && k !in w.err && m in w.err
  }

  /** The handler's end leaves both live, and with the same content exactly if the erring
    * member stored the sector all the same; the end by the count takes it out. */
  lemma CopiesAgreeIff(s: Volume, id: nat, k: nat, m: nat, x: nat)
    requires Inv(s) && id in s.writers && s.writers[id].phase.Admitted? && OneErred(s, s.writers[id], k, m, x)
    ensures
      var w, u, p := s.writers[id], HandlerEnd(s, id), s.geo.at(x);
      && k in u.live && m in u.live
      && (u.media[k][p] == u.media[m][p] <==> s.media[m][p] == w.data[x - w.pos])
    ensures m !in MarkFailed(s, s.writers[id].err).live
  {
    var w := s.writers[id];
    assert WriterOk(s, w) && LandedOk(s, w);
    assert AllLanded(s.geo, w, k) && (k, x) in w.landed;
    assert OnMedia(s, w, k, x);
  }

  /** Member 0 has taken a write of 5, member 1 has answered with an error. */
  function Half(): Volume {
    R.Fresh().(media := [[5], [0]], count := [1, 0],
      writers := map[7 := Writer(0, [5], {0, 1}, Admitted(0), {(0, 0)}, {0, 1}, {1})])
  }

  lemma HalfReached(ok: R.Hypothesis)
    requires R.Lenient(ok)
    ensures R.Reaches(R.Fresh(), Half(), ok)
  {
    var o := R.Fresh();
    R.FreshReached(ok);
    R.BeginWrite(o, o, ok);
    R.Admit(o, o.(writers := map[7 := R.W({0, 1}, Snapped)]), {0, 1}, 0, ok);
    assert [0, 0][0 := 0 + 1] == [1, 0];
    HalfStored(o, o.(writers := map[7 := R.W({0, 1}, Admitted(0))], count := [1, 0]), ok);
  }

  lemma HalfStored(o: Volume, t: Volume, ok: R.Hypothesis)
    requires R.Lenient(ok) && R.Reaches(o, t, ok)
    requires t == R.Fresh().(writers := map[7 := R.W({0, 1}, Admitted(0))], count := [1, 0])
    ensures R.Reaches(o, Half(), ok)
  {
    R.Store(o, t, R.W({0, 1}, Admitted(0)), 0, ok);
    assert {} + {(0, 0)} == {(0, 0)} && {} + {0} == {0} && t.media[0 := [5]] == [[5], [0]];
    var w := Writer(0, [5], {0, 1}, Admitted(0), {(0, 0)}, {0}, {});
    R.Answer(o, t.(media := [[5], [0]], writers := map[7 := w]), w, 1, false, ok);
    assert {0} + {1} == {0, 1} && {} + {1} == {1};
  }

  /** Two live copies, no request in flight, and different contents: every READ of the
    * sector may return the one or the other. */
  lemma LiveCopiesDisagree()
    ensures Init(R.Fresh()) && R.Reaches(R.Fresh(), Half(), CarefulStep)
    ensures
      var u := HandlerEnd(Half(), 7);
      u.live == {0, 1} && u.writers == map[] && u.count == [0, 0] && u.media[0] != u.media[1]
  {
    assert R.Lenient(CarefulStep);
    R.FreshReached(CarefulStep);
    HalfReached(CarefulStep);
    assert [1, 0][0 := 1 + -1] == [0, 0];
  }
}
