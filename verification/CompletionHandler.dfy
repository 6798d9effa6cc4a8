/** A request that the timeout handler ends itself: rc_volume_finish_status is passed by,
  * and with it the marking of the members that erred. */
module CompletionHandler {
  import opened FinishStatus
  import opened Completion
  import opened CompletionPdu

  predicate AllByHandler(os: seq<Outcome>) {
    forall i :: 0 <= i < |os| ==> os[i].way.ByHandler?
  }

  /** Only an end by the count marks anybody. */
  predicate MarksOk(r: Req) {
    AllByHandler(r.enders) && AllByHandler(r.ended) ==> r.marked == {}
  }

  lemma EndMoves(os: seq<Outcome>, i: nat, into: seq<Outcome>)
    requires i < |os| && AllByHandler(Without(os, i)) && AllByHandler(into + [os[i]])
    ensures AllByHandler(os) && AllByHandler(into)
  {
    assert (into + [os[i]])[|into|] == os[i];
    forall j | 0 <= j < |os| ensures os[j].way.ByHandler? {
      if j < i { assert Without(os, i)[j] == os[j]; }
      if j > i { assert Without(os, i)[j - 1] == os[j]; }
    }
    forall j | 0 <= j < |into| ensures into[j].way.ByHandler? { assert (into + [os[i]])[j] == into[j]; }
  }

  lemma SettleAdds(os: seq<Outcome>, o: Outcome)
    requires AllByHandler(os + [o])
    ensures AllByHandler(os) && o.way.ByHandler?
  {
    assert (os + [o])[|os|] == o;
    forall j | 0 <= j < |os| ensures os[j].way.ByHandler? { assert (os + [o])[j] == os[j]; }
  }

  lemma StepKeepsMarks(r: Req, l: Step)
    requires MarksOk(r) && Enabled(r, l)
    ensures MarksOk(Apply(r, l))
  {
    var t := Apply(r, l);
    if AllByHandler(t.enders) && AllByHandler(t.ended) {
      if l.End? { EndMoves(r.enders, l.i, r.ended); }
      if l.Settle? {
        SettleAdds(r.enders, Outcome(r.winners[l.i], Verdict(r, r.winners[l.i]).0));
      }
    }
  }

  lemma {:induction false} RunKeepsMarks(r: Req, steps: seq<Step>)
    requires MarksOk(r) && Legal(r, steps)
    ensures MarksOk(Run(r, steps))
    decreases |steps|
  {
    if steps != [] {
      StepKeepsMarks(r, steps[0]);
      RunKeepsMarks(Apply(r, steps[0]), steps[1..]);
    }
  }

  /** When a member that erred on a request of a mirrored volume keeps its place: if and
    * only if the request was ended by a handler and not by the count. */
  lemma UnmarkedIffByHandler(r: Req, steps: seq<Step>, m: nat)
    requires Started(r) && Legal(r, steps) && Mirrored(r.level) && Run(r, steps).ended != []
    requires m in Run(r, steps).errs
    ensures var e := Run(r, steps); |e.ended| == 1 && (m !in e.marked <==> e.ended[0].way.ByHandler?)
  {
    var e := Run(r, steps);
    EndedOnceAndTrue(r, steps);
    SameRequest(r, steps);
    StartedInv(r);
    RunKeepsInv(r, steps);
    RunKeepsMarks(r, steps);
    assert Truthful(e, e.ended[0]);
    if e.ended[0].way.ByHandler? {
      assert ClaimOk(e) && e.enders == [];
    } else {
      DownIsDone(e);
    }
  }

  // ---------- it happens ----------

  /** A WRITE to both pairs of a RAID10 volume, just started. */
  function Fresh(): Req {
    Req(Raid10(2), Write, {0, 1, 2, 3}, {}, {}, false, 4, false, true, 0, map[], {}, {}, {}, {}, 0, [], [],
        {}, [], {}, [])
  }

  /** Member m succeeds and is counted down. */
  lemma Succeeds(a: Req, m: nat, b: Req)
    requires Reaches(Fresh(), a) && m in a.mask && m !in a.cqes && m !in a.acked && m !in a.taken && m !in a.owing
    requires m !in a.failing && a.pending > 1
    requires b == a.(cqes := a.cqes[m := true], taken := a.taken + {m}, acked := a.acked + {m},
                     success := a.success + {m}, pending := a.pending - 1, decs := a.decs + [m])
    ensures Reaches(Fresh(), b)
  {
    var r := Apply(a, Respond(m, true));
    ReachesThen(Fresh(), a, Respond(m, true), r);
    var c := Apply(r, CqeAck(m));
    ReachesThen(Fresh(), r, CqeAck(m), c);
    assert c.owing - {m} == a.owing;
    ReachesThen(Fresh(), c, Dec(m), b);
  }

  /** Members 0 and 2, one of each pair, take the write. */
  function OneOfEach(): Req {
    Fresh().(cqes := map[0 := true, 2 := true], taken := {0, 2}, acked := {0, 2}, success := {0, 2},
             pending := 2, decs := [0, 2])
  }

  lemma PairsTakeIt()
    ensures Reaches(Fresh(), OneOfEach())
  {
    ReachesSelf(Fresh());
    var a := Fresh().(cqes := map[0 := true], taken := {0}, acked := {0}, success := {0}, pending := 3, decs := [0]);
    assert map[][0 := true] == map[0 := true] && {} + {0} == {0} && [] + [0] == [0];
    Succeeds(Fresh(), 0, a);
    assert map[0 := true][2 := true] == map[0 := true, 2 := true] && {0} + {2} == {0, 2} && [0] + [2] == [0, 2];
    Succeeds(a, 2, OneOfEach());
  }

  /** Member 3 is dead: the drain answers for it. */
  function Drained(): Req {
    OneOfEach().(acked := {0, 2, 3}, errs := {3}, sc := true, pending := 1, decs := [0, 2, 3])
  }

  lemma DrainAnswers()
    ensures Reaches(Fresh(), Drained())
  {
    PairsTakeIt();
    var a := OneOfEach();
    var b := a.(acked := {0, 2, 3}, owing := {3}, failing := {3});
    assert {0, 2} + {3} == {0, 2, 3} && {} + {3} == {3};
    ReachesThen(Fresh(), a, DrainAck(3), b);
    var c := b.(errs := {3}, sc := true, failing := {});
    assert {3} - {3} == {};
    ReachesThen(Fresh(), b, DrainNote(3), c);
    assert [0, 2] + [3] == [0, 2, 3];
    ReachesThen(Fresh(), c, Dec(3), Drained());
  }

  /** Member 1 answers with an error; its handler has acknowledged it, but not yet counted. */
  function Erred(): Req {
    Drained().(cqes := map[0 := true, 2 := true, 1 := false], errs := {1, 3}, noted := {1}, taken := {0, 1, 2},
               acked := {0, 1, 2, 3}, owing := {1})
  }

  lemma MemberErrs()
    ensures Reaches(Fresh(), Erred())
  {
    DrainAnswers();
    var a := Drained();
    var b := a.(cqes := map[0 := true, 2 := true, 1 := false]);
    assert a.cqes[1 := false] == b.cqes;
    ReachesThen(Fresh(), a, Respond(1, false), b);
    var c := b.(errs := {1, 3}, noted := {1});
    assert {3} + {1} == {1, 3} && {} + {1} == {1};
    ReachesThen(Fresh(), b, CqeNote(1), c);
    assert {0, 2} + {1} == {0, 1, 2} && {0, 2, 3} + {1} == {0, 1, 2, 3};
    ReachesThen(Fresh(), c, CqeAck(1), Erred());
  }

  /** Everybody has answered, so the timeout handler ends the request; the count comes to
    * its end after it. */
  function EndedByHandler(): Req {
    Erred().(completed := true, counted := false, ended := [Outcome(ByHandler(IoErr), IoErr)],
             owing := {}, pending := 0, decs := [0, 2, 3, 1])
  }

  lemma HandlerEnds()
    ensures Reaches(Fresh(), Erred().(completed := true, counted := false, ended := EndedByHandler().ended))
  {
    MemberErrs();
    var a := Erred();
    var b := a.(completed := true, winners := [ByHandler(IoErr)]);
    ReachesThen(Fresh(), a, HandlerClaim(IoErr), b);
    var c := a.(completed := true, counted := false, enders := EndedByHandler().ended);
    assert Without(b.winners, 0) == [];
    ReachesThen(Fresh(), b, Settle(0), c);
    assert Without(c.enders, 0) == [] && [] + [c.enders[0]] == EndedByHandler().ended;
    ReachesThen(Fresh(), c, End(0), a.(completed := true, counted := false, ended := EndedByHandler().ended));
  }

  /** Member 1 erred and is not marked, member 0 holds the data, nobody is on the way: two
    * live copies of one pair are left with different contents. */
  lemma ErringMemberStaysLive()
    ensures Started(Fresh()) && Reaches(Fresh(), EndedByHandler())
    ensures
      var e := EndedByHandler();
      && e.acked == e.mask && e.owing == {} && e.claimers == 0 && e.winners == [] && e.enders == []
      && 1 in e.errs && 1 !in e.marked && 0 in e.success && {0, 1} == Column(0)
  {
    HandlerEnds();
    var a := Erred().(completed := true, counted := false, ended := EndedByHandler().ended);
    var b := EndedByHandler().(claimers := 1);
    assert {1} - {1} == {} && [0, 2, 3] + [1] == [0, 2, 3, 1];
    ReachesThen(Fresh(), a, Dec(1), b);
    ReachesThen(Fresh(), b, TryClaim, EndedByHandler());
  }
}
