/** One started request of src/rc_nvme.c while interrupt handlers, the dead-member
  * drain and the timeout handler race to complete it, one atomic operation a step. */
module Completion {
  import opened FinishStatus

  /** Who holds the right to end the request: whoever saw the last completion counted
    * down, or a handler that ends it with a status of its own. */
  datatype Way = ByCount | ByHandler(status: Status)
  datatype Outcome = Outcome(way: Way, status: Status)

  datatype Req = Req(
    level: Level, op: Op, mask: set<nat>,
    acked: set<nat>, errs: set<nat>, sc: bool, pending: int, completed: bool, counted: bool, gen: nat,
    // what the controllers posted (true: success), and which of it a handler has noted, taken
    cqes: map<nat, bool>, noted: set<nat>, taken: set<nat>,
    // actors between two of their atomic operations
    owing: set<nat>, failing: set<nat>, claimers: nat, winners: seq<Way>, enders: seq<Outcome>,
    // what happened
    success: set<nat>, decs: seq<nat>, marked: set<nat>, ended: seq<Outcome>)

  datatype Step =
    | Respond(m: nat, good: bool)
    | CqeNote(m: nat) | CqeAck(m: nat)
    | DrainAck(m: nat) | DrainNote(m: nat)
    | Dec(m: nat) | TryClaim | HandlerClaim(status: Status)
    | Settle(i: nat) | End(i: nat)

  predicate Enabled(r: Req, l: Step) {
    match l
    case Respond(m, good) => m in r.mask && m !in r.cqes
    case CqeNote(m) => m in r.cqes && !r.cqes[m] && m !in r.taken
    case CqeAck(m) => m in r.cqes && m !in r.taken && (r.cqes[m] || m in r.noted)
    case DrainAck(m) => m in r.mask
    case DrainNote(m) => m in r.failing
    case Dec(m) => m in r.owing && m !in r.failing
    case TryClaim => r.claimers > 0
    case HandlerClaim(status) => status != Ok
    case Settle(i) => i < |r.winners|
    case End(i) => i < |r.enders|
  }

  function Without<T>(s: seq<T>, i: nat): seq<T>
    requires i < |s|
  {
    s[..i] + s[i + 1..]
  }

  /** atomic_cmpxchg of completed. */
  function Claim(r: Req, way: Way): Req {
    if r.completed then r else r.(completed := true, winners := r.winners + [way])
  }

  /** atomic_dec_and_test: whoever reaches zero goes on to the claim. */
  function CountDown(r: Req, m: nat): Req {
    r.(pending := r.pending - 1, owing := r.owing - {m}, decs := r.decs + [m],
       claimers := if r.pending == 1 then r.claimers + 1 else r.claimers)
  }

  /** What the holder of the right ends the request with, and whom it marks failed. */
  function Verdict(r: Req, way: Way): (Status, set<nat>) {
    if way.ByCount? then Finished(r.level, r.op, r.mask, r.errs, r.sc) else (way.status, {})
  }

  /** rc_volume_unmap_request_sg, then the status. */
  function Unmap(r: Req, way: Way, rest: seq<Way>): Req {
    var v := Verdict(r, way);
    r.(counted := false, winners := rest, enders := r.enders + [Outcome(way, v.0)], marked := r.marked + v.1)
  }

  function Apply(r: Req, l: Step): Req
    requires Enabled(r, l)
  {
    match l
    case Respond(m, good) => r.(cqes := r.cqes[m := good])
    case CqeNote(m) => r.(errs := r.errs + {m}, sc := true, noted := r.noted + {m})
    case CqeAck(m) =>
      var t := r.(taken := r.taken + {m});
      if m in r.acked then t
      else t.(acked := r.acked + {m}, owing := r.owing + {m},
              success := if r.cqes[m] then r.success + {m} else r.success)
    case DrainAck(m) =>
      if m in r.acked then r
      else r.(acked := r.acked + {m}, owing := r.owing + {m}, failing := r.failing + {m})
    case DrainNote(m) => r.(errs := r.errs + {m}, sc := true, failing := r.failing - {m})
    case Dec(m) => CountDown(r, m)
    case TryClaim => Claim(r.(claimers := r.claimers - 1), ByCount)
    case HandlerClaim(status) => Claim(r, ByHandler(status))
    case Settle(i) => Unmap(r, r.winners[i], Without(r.winners, i))
    case End(i) => r.(enders := Without(r.enders, i), ended := r.ended + [r.enders[i]])
  }

  /** As dispatch leaves it: one completion owed by each member submitted to. */
  predicate Started(r: Req) {
    && r.mask != {} && r.pending == |r.mask| && !r.completed && !r.sc
    && r.acked == r.errs == r.noted == r.taken == r.owing == r.failing == r.success == r.marked == {}
    && r.cqes == map[] && r.claimers == 0 && r.winners == [] && r.enders == [] && r.decs == [] && r.ended == []
  }

  // ---------- the invariant ----------

  /** The countdown: one decrement a member, whoever consumed its completion. */
  predicate CountOk(r: Req) {
    && r.mask != {} && r.owing <= r.acked <= r.mask && r.failing <= r.owing
    && r.pending == |r.mask - r.acked| + |r.owing|
    && DecsOk(|r.mask|, r.pending, r.acked - r.owing, r.decs)
  }

  /** The members counted down so far, each once. */
  predicate DecsOk(all: nat, pending: int, done: set<nat>, decs: seq<nat>) {
    && pending == all - |decs|
    && (forall i, j :: 0 <= i < j < |decs| ==> decs[i] != decs[j])
    && (forall i :: 0 <= i < |decs| ==> decs[i] in done)
  }

  /** The errors: exactly the members counted down, or about to be, without success. */
  predicate ErrsOk(r: Req) {
    && ErrsInside(r)
    && (forall m :: m in r.mask ==> MemberOk(r, m))
  }

  predicate ErrsInside(r: Req) {
    && r.errs <= r.mask && r.noted <= r.mask && r.taken <= r.mask && r.success <= r.mask && r.cqes.Keys <= r.mask
    && (r.sc <==> r.errs != {})
  }

  predicate MemberOk(r: Req, m: nat) {
    && (m in r.success ==> m in r.acked && m in r.taken && m !in r.errs && m !in r.failing)
    && (m in r.success ==> m in r.cqes && r.cqes[m])
    && (m in r.noted ==> m in r.errs && m in r.cqes && !r.cqes[m])
    && (m in r.taken ==> m in r.acked && m in r.cqes)
    && (m in r.failing ==> m in r.acked)
    && (m in r.errs ==> m in r.acked || m in r.noted)
    && (m in r.acked ==> m in r.success || m in r.failing || m in r.errs)
  }

  /** The right to end the request: one holder at most, and one as soon as the count is
    * down and nobody is on the way to claim. */
  predicate ClaimFine(pending: int, completed: bool, counted: bool, claimers: nat, winners: seq<Way>, later: nat) {
    && |winners| + later == (if completed then 1 else 0)
    && (claimers > 0 ==> pending == 0)
    && (pending == 0 ==> claimers > 0 || completed)
    && (forall i :: 0 <= i < |winners| && winners[i].ByCount? ==> pending == 0)
    && (later > 0 ==> !counted)
  }

  predicate ClaimOk(r: Req) {
    ClaimFine(r.pending, r.completed, r.counted, r.claimers, r.winners, |r.enders| + |r.ended|)
  }

  /** An end by the count is OK exactly when what was asked for is durable, and then
    * every failing member is marked; an end by a handler is never OK, but what the handler
    * says. */
  predicate Truthful(r: Req, o: Outcome) {
    if o.way.ByCount? then Told(r.level, r.op, r.mask, r.pending, r.success, r.marked, o.status)
    else o.status == o.way.status != Ok
  }

  /** The handlers end a request with a failure. */
  predicate WaysOk(ways: seq<Way>) {
    forall i :: 0 <= i < |ways| && ways[i].ByHandler? ==> ways[i].status != Ok
  }

  predicate Told(level: Level, op: Op, mask: set<nat>, pending: int, success: set<nat>, marked: set<nat>, st: Status) {
    && pending == 0
    && st != Timeout
    && (st == Ok <==> Durable(level, op, mask, success))
    && (st == Ok || Mirrored(level) ==> mask - success <= marked)
  }

  predicate AllTruthful(r: Req) {
    AllTrue(r, r.enders) && AllTrue(r, r.ended)
  }

  predicate AllTrue(r: Req, os: seq<Outcome>) {
    forall i :: 0 <= i < |os| ==> Truthful(r, os[i])
  }

  predicate Inv(r: Req) {
    CountOk(r) && ErrsOk(r) && ClaimOk(r) && WaysOk(r.winners) && AllTruthful(r)
  }

  lemma StartedInv(r: Req)
    requires Started(r)
    ensures Inv(r)
  {
    assert r.mask - r.acked == r.mask;
  }

  // ---------- the countdown ----------

  lemma OneOff(a: set<nat>, m: nat)
    requires m in a
    ensures |a - {m}| == |a| - 1
  {
  }

  lemma AckCounts(r: Req, m: nat)
    requires CountOk(r) && m in r.mask && m !in r.acked
    ensures |r.mask - (r.acked + {m})| == |r.mask - r.acked| - 1 && |r.owing + {m}| == |r.owing| + 1
  {
    assert r.mask - (r.acked + {m}) == (r.mask - r.acked) - {m};
    OneOff(r.mask - r.acked, m);
    assert m !in r.owing;
  }

  lemma AckKeepsCount(r: Req, m: nat, r': Req)
    requires CountOk(r) && m in r.mask && m !in r.acked
    requires r'.mask == r.mask && r'.acked == r.acked + {m} && r'.owing == r.owing + {m} && r'.decs == r.decs
    requires r'.pending == r.pending && r'.failing <= r.failing + {m}
    ensures CountOk(r')
  {
    AckCounts(r, m);
    assert r'.acked - r'.owing == r.acked - r.owing;
  }

  lemma DecKeepsCount(r: Req, m: nat, r': Req)
    requires CountOk(r) && m in r.owing && m !in r.failing && r' == CountDown(r, m)
    ensures CountOk(r')
  {
    OneOff(r.owing, m);
    assert r'.acked - r'.owing == (r.acked - r.owing) + {m};
  }

  lemma StepKeepsCount(r: Req, l: Step)
    requires CountOk(r) && r.cqes.Keys <= r.mask && Enabled(r, l)
    ensures CountOk(Apply(r, l))
  {
    match l
    case CqeAck(m) => if m !in r.acked { AckKeepsCount(r, m, Apply(r, l)); }
    case DrainAck(m) => if m !in r.acked { AckKeepsCount(r, m, Apply(r, l)); }
    case Dec(m) => DecKeepsCount(r, m, Apply(r, l));
    case _ =>
  }

  lemma StepKeepsMember(r: Req, l: Step, m: nat)
    requires MemberOk(r, m) && Enabled(r, l)
    ensures MemberOk(Apply(r, l), m)
  {
  }

  lemma StepKeepsInside(r: Req, l: Step)
    requires ErrsInside(r) && r.failing <= r.mask && Enabled(r, l)
    ensures ErrsInside(Apply(r, l))
  {
    if l.CqeNote? || l.DrainNote? { assert l.m in Apply(r, l).errs; }
  }

  lemma StepKeepsErrs(r: Req, l: Step)
    requires CountOk(r) && ErrsOk(r) && Enabled(r, l)
    ensures ErrsOk(Apply(r, l))
  {
    var r' := Apply(r, l);
    StepKeepsInside(r, l);
    forall m | m in r'.mask ensures MemberOk(r', m) {
      StepKeepsMember(r, l, m);
    }
  }

  /** The count is down: every member acknowledged, nobody between two operations, the
    * errors exactly the members that did not succeed. */
  lemma DownIsDone(r: Req)
    requires CountOk(r) && ErrsOk(r)
    ensures r.pending >= 0
    ensures r.pending == 0 <==> r.acked == r.mask && r.owing == {}
    ensures r.pending == 0 ==> r.errs == r.mask - r.success && r.failing == {}
  {
    if r.pending == 0 {
      assert r.mask - r.acked == {};
      assert r.owing == {};
      assert forall m :: m in r.mask ==> MemberOk(r, m);
    }
    if r.acked == r.mask {
      assert r.mask - r.acked == {};
    }
  }

  // ---------- the claim ----------

  lemma WinKeepsClaim(r: Req, l: Step)
    requires ClaimOk(r) && Enabled(r, l) && (l.TryClaim? || l.HandlerClaim?)
    ensures ClaimOk(Apply(r, l))
  {
  }

  lemma FinishKeepsClaim(r: Req, l: Step)
    requires ClaimOk(r) && Enabled(r, l) && (l.Settle? || l.End?)
    ensures ClaimOk(Apply(r, l))
  {
    if l.Settle? {
      assert |r.winners| == 1 && l.i == 0;
      assert Without(r.winners, l.i) == [];
    } else {
      assert |Without(r.enders, l.i)| == |r.enders| - 1;
    }
  }

  lemma StepKeepsClaim(r: Req, l: Step)
    requires CountOk(r) && ClaimOk(r) && Enabled(r, l)
    ensures ClaimOk(Apply(r, l))
  {
    match l
    case Dec(m) => DecIsLate(r, m);
    case TryClaim => WinKeepsClaim(r, l);
    case HandlerClaim(status) => WinKeepsClaim(r, l);
    case Settle(i) => FinishKeepsClaim(r, l);
    case End(i) => FinishKeepsClaim(r, l);
    case _ =>
  }

  /** A decrement still to come: the count is not down. */
  lemma DecIsLate(r: Req, m: nat)
    requires CountOk(r) && m in r.owing
    ensures r.pending > 0
  {
    assert r.owing != {};
  }

  // ---------- the status ----------

  lemma Frozen(r: Req, l: Step)
    requires CountOk(r) && ErrsOk(r) && Enabled(r, l) && r.pending == 0
    ensures
      var r' := Apply(r, l);
      r'.pending == 0 && r'.success == r.success && r'.mask == r.mask && r'.level == r.level && r'.op == r.op &&
      r.marked <= r'.marked
  {
    DownIsDone(r);
  }

  lemma TruthStays(r: Req, l: Step, o: Outcome)
    requires CountOk(r) && ErrsOk(r) && Enabled(r, l) && Truthful(r, o)
    ensures Truthful(Apply(r, l), o)
  {
    if o.way.ByCount? { Frozen(r, l); }
  }

  lemma SettleTells(r: Req, way: Way, rest: seq<Way>, r': Req)
    requires CountOk(r) && ErrsOk(r) && (if way.ByCount? then r.pending == 0 else way.status != Ok)
    requires r' == Unmap(r, way, rest)
    ensures Truthful(r', Outcome(way, Verdict(r, way).0))
  {
    if way.ByCount? {
      DownIsDone(r);
      OkIffDurable(r.level, r.op, r.mask, r.success);
      assert r.sc <==> r.mask != r.success;
    }
  }

  lemma TruthStaysAll(r: Req, l: Step, os: seq<Outcome>)
    requires CountOk(r) && ErrsOk(r) && Enabled(r, l) && AllTrue(r, os)
    ensures AllTrue(Apply(r, l), os)
  {
    forall i | 0 <= i < |os| ensures Truthful(Apply(r, l), os[i]) {
      TruthStays(r, l, os[i]);
    }
  }

  lemma TruthMoves(r: Req, os: seq<Outcome>, i: nat, into: seq<Outcome>)
    requires AllTrue(r, os) && AllTrue(r, into) && i < |os|
    ensures AllTrue(r, Without(os, i)) && AllTrue(r, into + [os[i]])
  {
  }

  lemma TruthAdds(r: Req, os: seq<Outcome>, o: Outcome)
    requires AllTrue(r, os) && Truthful(r, o)
    ensures AllTrue(r, os + [o])
  {
  }

  lemma StepKeepsTruth(r: Req, l: Step)
    requires CountOk(r) && ErrsOk(r) && AllTruthful(r) && WaysOk(r.winners) && Enabled(r, l)
    requires l.Settle? && r.winners[l.i].ByCount? ==> r.pending == 0
    ensures AllTruthful(Apply(r, l))
  {
    var r' := Apply(r, l);
    TruthStaysAll(r, l, r.enders);
    TruthStaysAll(r, l, r.ended);
    match l
    case Settle(i) =>
      SettleTells(r, r.winners[i], Without(r.winners, i), r');
      TruthAdds(r', r.enders, Outcome(r.winners[i], Verdict(r, r.winners[i]).0));
    case End(i) => TruthMoves(r', r.enders, i, r.ended);
    case _ =>
  }

  lemma StepKeepsWays(r: Req, l: Step)
    requires WaysOk(r.winners) && Enabled(r, l)
    ensures WaysOk(Apply(r, l).winners)
  {
  }

  lemma StepKeepsInv(r: Req, l: Step)
    requires Inv(r) && Enabled(r, l)
    ensures Inv(Apply(r, l))
  {
    StepKeepsWays(r, l);
    StepKeepsCount(r, l);
    StepKeepsErrs(r, l);
    StepKeepsClaim(r, l);
    StepKeepsTruth(r, l);
  }

  // ---------- runs ----------

  predicate Legal(r: Req, steps: seq<Step>)
    decreases |steps|
  {
    steps == [] || (Enabled(r, steps[0]) && Legal(Apply(r, steps[0]), steps[1..]))
  }

  function Run(r: Req, steps: seq<Step>): Req
    requires Legal(r, steps)
    decreases |steps|
  {
    if steps == [] then r else Run(Apply(r, steps[0]), steps[1..])
  }

  lemma {:induction false} RunKeepsInv(r: Req, steps: seq<Step>)
    requires Inv(r) && Legal(r, steps)
    ensures Inv(Run(r, steps))
    decreases |steps|
  {
    if steps != [] {
      StepKeepsInv(r, steps[0]);
      RunKeepsInv(Apply(r, steps[0]), steps[1..]);
    }
  }

  /** However the handlers interleave: each member's completion is counted down at most
    * once, the request is ended at most once, and an end by the count is OK exactly when
    * what was asked for is durable, every member that failed then being marked. */
  lemma EndedOnceAndTrue(r: Req, steps: seq<Step>)
    requires Started(r) && Legal(r, steps)
    ensures var e := Run(r, steps);
      && (forall i, j :: 0 <= i < j < |e.decs| ==> e.decs[i] != e.decs[j])
      && 0 <= e.pending == |r.mask| - |e.decs|
      && |e.ended| <= 1
      && (forall i :: 0 <= i < |e.ended| ==> Truthful(e, e.ended[i]))
  {
    StartedInv(r);
    RunKeepsInv(r, steps);
    DownIsDone(Run(r, steps));
    SameRequest(r, steps);
  }

  lemma {:induction false} SameRequest(r: Req, steps: seq<Step>)
    requires Legal(r, steps)
    ensures var e := Run(r, steps); e.mask == r.mask && e.level == r.level && e.op == r.op
    decreases |steps|
  {
    if steps != [] {
      SameRequest(Apply(r, steps[0]), steps[1..]);
    }
  }

  /** Nobody is marked before the request is ended by the count, nor ever on a level that
    * is not mirrored; then exactly the members that did not succeed. */
  predicate MarkedFine(r: Req) {
    r.marked != {} ==> Mirrored(r.level) && r.pending == 0 && r.marked == r.mask - r.success
  }

  lemma StepKeepsMarked(r: Req, l: Step)
    requires Inv(r) && MarkedFine(r) && Enabled(r, l)
    ensures MarkedFine(Apply(r, l))
  {
    if l.Settle? && r.winners[l.i].ByCount? {
      CountMarks(r, l.i);
    } else {
      if r.pending == 0 { Frozen(r, l); }
      OthersMarkNone(r, l);
    }
  }

  lemma OthersMarkNone(r: Req, l: Step)
    requires Enabled(r, l) && (l.Settle? ==> r.winners[l.i].ByHandler?)
    ensures Apply(r, l).marked == r.marked
  {
  }

  lemma CountMarks(r: Req, i: nat)
    requires Inv(r) && MarkedFine(r) && i < |r.winners| && r.winners[i].ByCount?
    ensures MarkedFine(Apply(r, Settle(i)))
  {
    DownIsDone(r);
    OkIffDurable(r.level, r.op, r.mask, r.success);
    assert r.sc <==> r.mask != r.success;
  }

  lemma {:induction false} RunKeepsMarked(r: Req, steps: seq<Step>)
    requires Inv(r) && MarkedFine(r) && Legal(r, steps)
    ensures MarkedFine(Run(r, steps))
    decreases |steps|
  {
    if steps != [] {
      StepKeepsInv(r, steps[0]);
      StepKeepsMarked(r, steps[0]);
      RunKeepsMarked(Apply(r, steps[0]), steps[1..]);
    }
  }

  /** However the handlers interleave, no member that succeeded is ever marked failed, and
    * on a volume without redundancy no member is marked at all. */
  lemma OnlyErringAreMarked(r: Req, steps: seq<Step>)
    requires Started(r) && Legal(r, steps)
    ensures var e := Run(r, steps); e.marked <= r.mask - e.success && (!Mirrored(r.level) ==> e.marked == {})
  {
    StartedInv(r);
    RunKeepsMarked(r, steps);
    SameRequest(r, steps);
  }

  /** However a request is ended: OK only when what was asked for is durable on members
    * that succeeded, with every other member of the request marked failed; and the way it
    * was ended was the count. */
  lemma OkMeansDurable(r: Req, steps: seq<Step>, i: nat)
    requires Started(r) && Legal(r, steps) && i < |Run(r, steps).ended| && Run(r, steps).ended[i].status == Ok
    ensures var e := Run(r, steps);
      && e.ended[i].way == ByCount && e.pending == 0
      && Durable(r.level, r.op, r.mask, e.success) && r.mask - e.success <= e.marked
      && (forall m :: m in e.success ==> m in e.cqes && e.cqes[m])
  {
    EndedOnceAndTrue(r, steps);
    SameRequest(r, steps);
    var e := Run(r, steps);
    assert Truthful(e, e.ended[i]);
    StartedInv(r);
    RunKeepsInv(r, steps);
    forall m | m in e.success ensures m in e.cqes && e.cqes[m] {
      assert MemberOk(e, m);
    }
  }

  // ---------- nothing went wrong ----------

  /** Every completion says success, and no drain ran. */
  predicate Fine(r: Req) {
    r.errs == {} && r.failing == {} && r.noted == {} && forall m :: m in r.cqes ==> r.cqes[m]
  }

  predicate Smooth(l: Step) {
    !l.DrainAck? && (l.Respond? ==> l.good)
  }

  lemma {:induction false} RunStaysFine(r: Req, steps: seq<Step>)
    requires Fine(r) && Legal(r, steps) && forall i :: 0 <= i < |steps| ==> Smooth(steps[i])
    ensures Fine(Run(r, steps))
    decreases |steps|
  {
    if steps != [] {
      assert Smooth(steps[0]);
      RunStaysFine(Apply(r, steps[0]), steps[1..]);
    }
  }

  /** A request whose members all answer success, with no member dead, ends OK if it is
    * ended by the count, and no member is marked. */
  lemma SmoothEndsOk(r: Req, steps: seq<Step>, i: nat)
    requires Started(r) && Legal(r, steps) && i < |Run(r, steps).ended| && Run(r, steps).ended[i].way.ByCount?
    requires forall k :: 0 <= k < |steps| ==> Smooth(steps[k])
    ensures var e := Run(r, steps); e.ended[i].status == Ok && e.success == r.mask && e.marked == {}
  {
    var e := Run(r, steps);
    EndedOnceAndTrue(r, steps);
    OnlyErringAreMarked(r, steps);
    RunStaysFine(r, steps);
    SameRequest(r, steps);
    StartedInv(r);
    RunKeepsInv(r, steps);
    assert Truthful(e, e.ended[i]);
    DownIsDone(e);
    assert e.success == r.mask;
    AllIsDurable(r.level, r.op, r.mask);
  }

  lemma AllIsDurable(level: Level, op: Op, mask: set<nat>)
    requires mask != {}
    ensures Durable(level, op, mask, mask)
  {
    assert mask * mask == mask;
    if level.Raid10? {
      forall c | 0 <= c < level.cols ensures !ColumnLost(c, mask, mask) {
        assert mask * Column(c) * mask == mask * Column(c);
      }
    }
  }

  /** No request is left behind: once every member's completion has been consumed and no
    * actor is between two of its operations, the request has been ended exactly once
    * and its write generation released. */
  lemma QuietMeansEnded(r: Req)
    requires Inv(r)
    requires r.acked == r.mask && r.owing == {} && r.claimers == 0 && r.winners == [] && r.enders == []
    ensures |r.ended| == 1 && !r.counted
  {
    DownIsDone(r);
  }
}
