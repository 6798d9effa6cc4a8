/** Whose status a synchronous command of src/rc_nvme.c returns, when the interrupt
  * handler and the poll loop both consume and earlier commands have timed out. */
module RingSync {
  import opened Ring

  predicate UnreadHas(r: Pair, t: nat) {
    exists i :: |r.consumed| <= i < |r.posted| && r.posted[i].tag == t
  }

  /** Submitted, its completion not yet consumed. */
  predicate Out(r: Pair, t: nat) {
    (|r.fetched| <= t < |r.submitted|) || t in r.running || UnreadHas(r, t)
  }

  predicate Carries(r: Pair, t: nat, cid: nat) {
    t < |r.submitted| && Out(r, t) && r.submitted[t].cid == cid
  }

  /** No outstanding command carries the CID the next synchronous call will use. */
  predicate CidFree(r: Pair) {
    NoneCarries(r, SyncCid(r.arms + 1))
  }

  predicate NoneCarries(r: Pair, cid: nat) {
    forall t :: 0 <= t < |r.submitted| ==> !Carries(r, t, cid)
  }

  /** The status came with the caller's own completion. */
  predicate Backed(r: Pair, a: Answer) {
    exists i :: 0 <= i < |r.consumed| && r.consumed[i].tag == a.tag && r.consumed[i].status == a.status
  }

  predicate AnswersTrue(r: Pair, from: nat) {
    forall k :: from <= k < |r.answers| ==> Backed(r, r.answers[k])
  }

  /** While the handshake is armed only the caller's own command can satisfy it. */
  predicate Owned(r: Pair) {
    && (r.caller.Armed? ==> r.pending)
    && (r.caller.Armed? || (r.caller.Waiting? && r.pending) ==>
          forall t :: 0 <= t < |r.submitted| ==>
            Carries(r, t, r.syncCid) ==> r.caller.Waiting? && t == r.caller.tag)
    && (r.caller.Waiting? && !r.pending ==> Backed(r, Answer(r.caller.tag, r.syncSc)))
  }

  // ---------- a free CID is enough ----------

  lemma CarriedBefore(r: Pair, l: Step, t: nat, cid: nat)
    requires Inv(r) && Enabled(r, l) && Carries(Apply(r, l), t, cid)
    ensures Carries(r, t, cid) || (t == |r.submitted| && (l.Submit? || l.SyncSubmit?))
  {
    if l.Fetch? {
      FetchReads(r);
      FetchedBefore(r, t, cid);
    } else {
      OthersBefore(r, l, t, cid);
    }
  }

  lemma FetchedBefore(r: Pair, t: nat, cid: nat)
    requires Enabled(r, Fetch) && Carries(Apply(r, Fetch), t, cid)
    requires |r.fetched| < |r.submitted| && r.sq[r.sqHead].tag == |r.fetched|
    ensures Carries(r, t, cid)
  {
  }

  lemma PushedBefore(r: Pair, r': Pair, t: nat, cid: nat)
    requires r'.running == r.running && r'.fetched == r.fetched && r'.posted == r.posted && r'.consumed == r.consumed
    requires |r'.submitted| == |r.submitted| + 1 && r'.submitted[..|r.submitted|] == r.submitted && Carries(r', t, cid)
    ensures Carries(r, t, cid) || t == |r.submitted|
  {
    if t < |r.submitted| { assert r'.submitted[t] == r'.submitted[..|r.submitted|][t]; }
  }

  lemma OthersBefore(r: Pair, l: Step, t: nat, cid: nat)
    requires Enabled(r, l) && !l.Fetch? && Carries(Apply(r, l), t, cid)
    ensures Carries(r, t, cid) || (t == |r.submitted| && (l.Submit? || l.SyncSubmit?))
  {
    match l
    case Submit(_) => PushedBefore(r, Apply(r, l), t, cid);
    case SyncSubmit => PushedBefore(r, Apply(r, l), t, cid);
    case Post(tag, status) => PostedBefore(r, tag, status, t);
    case IrqConsume => ConsumedBefore(r, Apply(r, l), t);
    case PollConsume => ConsumedBefore(r, Apply(r, l), t);
    case _ =>
  }

  lemma PostedBefore(r: Pair, tag: nat, status: nat, t: nat)
    requires Enabled(r, Post(tag, status)) && Out(Apply(r, Post(tag, status)), t)
    ensures Out(r, t)
  {
    var r' := Apply(r, Post(tag, status));
    if UnreadHas(r', t) {
      var i :| |r'.consumed| <= i < |r'.posted| && r'.posted[i].tag == t;
      assert i < |r.posted| ==> r.posted[i] == r'.posted[i];
    }
  }

  lemma ConsumedBefore(r: Pair, r': Pair, t: nat)
    requires r'.posted == r.posted && r'.running == r.running && r'.fetched == r.fetched && r'.submitted == r.submitted
    requires |r'.consumed| == |r.consumed| + 1
    ensures Out(r', t) ==> Out(r, t)
  {
  }

  lemma FetchReads(r: Pair)
    requires Inv(r) && Enabled(r, Fetch)
    ensures |r.fetched| < |r.submitted| && r.sq[r.sqHead] == r.submitted[|r.fetched|]
    ensures r.sq[r.sqHead].tag == |r.fetched|
  {
    NothingOverwritten(r, Fetch);
    PopFine(r.sq, r.sqHead, r.sqTail, r.submitted, r.fetched);
  }

  /** The entry at the head belongs to an outstanding command and carries its CID. */
  lemma HeadIsOut(r: Pair)
    requires Inv(r) && CqeReady(r)
    ensures var e := r.cq[r.cqHead]; Carries(r, e.tag, e.cid)
  {
    PhaseBitTellsIff(r);
    var k := |r.consumed|;
    assert r.posted[k].tag < |r.fetched|;
    assert r.fetched[r.posted[k].tag] == r.submitted[r.posted[k].tag];
  }

  lemma BackedStays(r: Pair, r': Pair, a: Answer)
    requires Backed(r, a) && r.consumed <= r'.consumed
    ensures Backed(r', a)
  {
    var i :| 0 <= i < |r.consumed| && r.consumed[i].tag == a.tag && r.consumed[i].status == a.status;
    assert r'.consumed[i] == r.consumed[i];
  }

  lemma TakenBacks(r: Pair, r': Pair, e: Cqe)
    requires r'.consumed == r.consumed + [e]
    ensures Backed(r', Answer(e.tag, e.status))
  {
    assert r'.consumed[|r.consumed|] == e;
  }

  lemma OnlyOwn(r: Pair, l: Step)
    requires Inv(r) && Owned(r) && Enabled(r, l) && !l.SyncArm?
    ensures
      var r' := Apply(r, l);
      r'.caller.Armed? || (r'.caller.Waiting? && r'.pending) ==>
        forall t :: 0 <= t < |r'.submitted| ==>
          Carries(r', t, r'.syncCid) ==> r'.caller.Waiting? && t == r'.caller.tag
  {
    var r' := Apply(r, l);
    if r'.caller.Armed? || (r'.caller.Waiting? && r'.pending) {
      forall t | 0 <= t < |r'.submitted| && Carries(r', t, r'.syncCid)
        ensures r'.caller.Waiting? && t == r'.caller.tag
      {
        CarriedBefore(r, l, t, r'.syncCid);
      }
    }
  }

  /** A status handed over is that of the caller's own completion. */
  lemma ClaimIsOwn(r: Pair, l: Step)
    requires Inv(r) && Owned(r) && Enabled(r, l) && !l.SyncArm?
    ensures
      var r' := Apply(r, l);
      r'.caller.Waiting? && !r'.pending ==> Backed(r', Answer(r'.caller.tag, r'.syncSc))
  {
    var r' := Apply(r, l);
    if r'.caller.Waiting? && !r'.pending {
      if !r.pending {
        BackedStays(r, r', Answer(r.caller.tag, r.syncSc));
      } else {
        HeadIsOut(r);
        TakenBacks(r, r', r.cq[r.cqHead]);
      }
    }
  }

  lemma ArmedStaysArmed(r: Pair, l: Step)
    requires Inv(r) && Owned(r) && Enabled(r, l) && !l.SyncArm?
    ensures Apply(r, l).caller.Armed? ==> Apply(r, l).pending
  {
    if l.IrqConsume? {
      HeadIsOut(r);
    }
  }

  lemma NewAnswerTrue(r: Pair, l: Step)
    requires Inv(r) && Owned(r) && Enabled(r, l) && !l.SyncArm?
    ensures var r' := Apply(r, l);
      r'.answers == r.answers || exists a :: r'.answers == r.answers + [a] && Backed(r', a)
  {
    var r' := Apply(r, l);
    if l.SyncReturn? {
      var a := Answer(r.caller.tag, r.syncSc);
      BackedStays(r, r', a);
      assert r'.answers == r.answers + [a];
    } else if l.PollConsume? && r.cq[r.cqHead].cid == r.syncCid {
      var e := r.cq[r.cqHead];
      HeadIsOut(r);
      TakenBacks(r, r', e);
      assert r'.answers == r.answers + [Answer(e.tag, e.status)];
    }
  }

  lemma StepKeepsOwned(r: Pair, l: Step, from: nat)
    requires Inv(r) && Owned(r) && AnswersTrue(r, from) && Enabled(r, l) && !l.SyncArm?
    ensures Owned(Apply(r, l)) && AnswersTrue(Apply(r, l), from)
  {
    var r' := Apply(r, l);
    OnlyOwn(r, l);
    ArmedStaysArmed(r, l);
    ClaimIsOwn(r, l);
    NewAnswerTrue(r, l);
    forall k | from <= k < |r'.answers| ensures Backed(r', r'.answers[k]) {
      if k < |r.answers| { BackedStays(r, r', r.answers[k]); }
    }
  }

  predicate NoArm(steps: seq<Step>) {
    forall i :: 0 <= i < |steps| ==> !steps[i].SyncArm?
  }

  lemma {:induction false} RunKeepsOwned(r: Pair, steps: seq<Step>, from: nat)
    requires Inv(r) && Owned(r) && AnswersTrue(r, from) && Legal(r, steps) && NoArm(steps)
    ensures AnswersTrue(Run(r, steps), from)
    decreases |steps|
  {
    if steps != [] {
      StepKeepsInv(r, steps[0]);
      StepKeepsOwned(r, steps[0], from);
      RunKeepsOwned(Apply(r, steps[0]), steps[1..], from);
    }
  }

  lemma ArmOwns(r: Pair)
    requires Inv(r) && Enabled(r, SyncArm) && CidFree(r)
    ensures Inv(Apply(r, SyncArm)) && Owned(Apply(r, SyncArm))
  {
    StepKeepsInv(r, SyncArm);
    var r' := Apply(r, SyncArm);
    forall t | 0 <= t < |r'.submitted| ensures !Carries(r', t, r'.syncCid) {
      assert !Carries(r, t, SyncCid(r.arms + 1));
    }
  }

  // ---------- and it is needed ----------

  /** A wait whose command the controller has not fetched, while the stale command x
    * with the same CID is out. */
  predicate Primed(r: Pair, x: nat) {
    && Inv(r) && r.caller.Waiting? && r.pending
    && |r.fetched| <= r.caller.tag == |r.submitted| - 1
    && x != r.caller.tag && Carries(r, x, r.syncCid)
  }

  function Work(r: Pair): nat
    requires Inv(r)
  {
    3 * Waits(r) + 2 * |r.running| + Unread(r)
  }

  /** The wait has returned although its command is still not fetched. */
  predicate Misled(r: Pair, from: nat) {
    Inv(r) && |r.answers| > from && r.answers[from].tag >= |r.fetched|
  }

  lemma Prepend(r: Pair, l: Step, more: seq<Step>)
    requires Enabled(r, l) && !l.SyncArm? && Legal(Apply(r, l), more) && NoArm(more)
    ensures Legal(r, [l] + more) && NoArm([l] + more)
    ensures Run(r, [l] + more) == Run(Apply(r, l), more)
  {
    var steps := [l] + more;
    assert steps[0] == l && steps[1..] == more;
  }

  lemma PassStale(r: Pair, x: nat)
    requires Primed(r, x) && CqeReady(r) && r.cq[r.cqHead].cid != r.syncCid
    ensures Primed(Apply(r, IrqConsume), x) && Work(Apply(r, IrqConsume)) < Work(r)
    ensures Apply(r, IrqConsume).answers == r.answers
  {
    IrqKeeps(r);
    StaysOut(r, x);
    PhaseBitTellsIff(r);
  }

  lemma PostStale(r: Pair, x: nat)
    requires Primed(r, x) && x in r.running
    ensures Enabled(r, Post(x, 0))
    ensures Primed(Apply(r, Post(x, 0)), x) && Work(Apply(r, Post(x, 0))) < Work(r)
  {
    var l := Post(x, 0);
    RunningIsSome(r.running, x);
    PostKeeps(r, x, 0);
    assert Apply(r, l).posted[|r.posted|].tag == x;
  }

  lemma FetchOn(r: Pair, x: nat)
    requires Primed(r, x) && !CqeReady(r) && x !in r.running
    ensures Enabled(r, Fetch)
    ensures Primed(Apply(r, Fetch), x) && Work(Apply(r, Fetch)) < Work(r)
  {
    XWaits(r, x);
    FetchReads(r);
    FetchKeeps(r);
    FetchedOnce(r.fetched, r.running, r.posted, r.sq[r.sqHead]);
  }

  lemma XWaits(r: Pair, x: nat)
    requires Primed(r, x) && !CqeReady(r) && x !in r.running
    ensures |r.fetched| <= x && Enabled(r, Fetch)
  {
    PhaseBitTellsIff(r);
    NothingOverwritten(r, SyncTimeout);
  }

  lemma TakeStale(r: Pair, x: nat) returns (steps: seq<Step>)
    requires Primed(r, x) && CqeReady(r) && r.cq[r.cqHead].cid == r.syncCid
    ensures Legal(r, steps) && NoArm(steps) && Misled(Run(r, steps), |r.answers|)
  {
    var r' := Apply(r, IrqConsume);
    IrqKeeps(r);
    CallerKeeps(r', SyncReturn);
    Prepend(r', SyncReturn, []);
    Prepend(r, IrqConsume, [SyncReturn]);
    steps := [IrqConsume] + [SyncReturn];
  }

  lemma {:induction false} Misread(r: Pair, x: nat) returns (steps: seq<Step>)
    requires Primed(r, x)
    ensures Legal(r, steps) && NoArm(steps) && Misled(Run(r, steps), |r.answers|)
    decreases Work(r)
  {
    if CqeReady(r) && r.cq[r.cqHead].cid == r.syncCid {
      steps := TakeStale(r, x);
    } else {
      var l := if CqeReady(r) then IrqConsume else if x in r.running then Post(x, 0) else Fetch;
      if l.IrqConsume? { PassStale(r, x); } else if l.Post? { PostStale(r, x); } else { FetchOn(r, x); }
      var more := Misread(Apply(r, l), x);
      Prepend(r, l, more);
      steps := [l] + more;
    }
  }

  lemma StaysOut(r: Pair, x: nat)
    requires Inv(r) && CqeReady(r) && Carries(r, x, r.syncCid) && r.cq[r.cqHead].cid != r.syncCid
    ensures Carries(Apply(r, IrqConsume), x, r.syncCid)
  {
    HeadIsOut(r);
    PhaseBitTellsIff(r);
    var r' := Apply(r, IrqConsume);
    if UnreadHas(r, x) {
      var i :| |r.consumed| <= i < |r.posted| && r.posted[i].tag == x;
      assert r'.posted[i].tag == x;
      assert i != |r.consumed|;
    }
  }

  ghost predicate AlwaysOwn(r: Pair)
    requires Enabled(r, SyncArm)
  {
    forall steps :: Legal(Apply(r, SyncArm), steps) && NoArm(steps) ==>
      AnswersTrue(Run(Apply(r, SyncArm), steps), |r.answers|)
  }

  /** In every continuation of an accepted synchronous call, a status it returns is that
    * of its own completion, exactly when no outstanding command carries its CID at the
    * moment it is armed. */
  lemma OwnStatusIffCidFree(r: Pair)
    requires Inv(r) && Enabled(r, SyncArm)
    ensures AlwaysOwn(r) <==> CidFree(r)
  {
    var r1 := Apply(r, SyncArm);
    if CidFree(r) {
      ArmOwns(r);
      forall steps | Legal(r1, steps) && NoArm(steps) ensures AnswersTrue(Run(r1, steps), |r.answers|) {
        RunKeepsOwned(r1, steps, |r.answers|);
      }
    } else {
      var x :| 0 <= x < |r.submitted| && Carries(r, x, SyncCid(r.arms + 1));
      var steps := ArmedMisread(r, x, r1);
    }
  }

  lemma ArmedMisread(r: Pair, x: nat, r1: Pair) returns (steps: seq<Step>)
    requires Inv(r) && Enabled(r, SyncArm) && Carries(r, x, SyncCid(r.arms + 1)) && r1 == Apply(r, SyncArm)
    ensures Legal(r1, steps) && NoArm(steps)
    ensures !AnswersTrue(Run(r1, steps), |r.answers|)
  {
    PrimedAfterArm(r, x, r1);
    var r2 := Apply(r1, SyncSubmit);
    var more := Misread(r2, x);
    Prepend(r1, SyncSubmit, more);
    steps := [SyncSubmit] + more;
    MisledIsFalse(Run(r1, steps), |r.answers|);
  }

  lemma PrimedAfterArm(r: Pair, x: nat, r1: Pair)
    requires Inv(r) && Enabled(r, SyncArm) && Carries(r, x, SyncCid(r.arms + 1)) && r1 == Apply(r, SyncArm)
    ensures Enabled(r1, SyncSubmit) && Apply(r1, SyncSubmit).answers == r.answers
    ensures Primed(Apply(r1, SyncSubmit), x)
  {
    CallerKeeps(r, SyncArm);
    var cid := SyncCid(r.arms + 1);
    ArmAlone(r, x, cid, r1);
    SubmitAlone(r1, x, cid, Apply(r1, SyncSubmit));
  }

  lemma ArmAlone(r: Pair, x: nat, cid: nat, r1: Pair)
    requires Enabled(r, SyncArm) && r1 == Apply(r, SyncArm) && Carries(r, x, cid)
    ensures Carries(r1, x, cid)
  {
    if UnreadHas(r, x) {
      assert r1.posted == r.posted && r1.consumed == r.consumed;
    }
  }

  lemma SubmitAlone(r: Pair, x: nat, cid: nat, r': Pair)
    requires Inv(r) && Enabled(r, SyncSubmit) && r' == Apply(r, SyncSubmit)
    requires r.pending && r.syncCid == cid && Carries(r, x, cid)
    ensures Primed(r', x)
  {
    SyncSubmitKeeps(r);
    assert r'.submitted[x] == r.submitted[x];
    if UnreadHas(r, x) {
      assert r'.posted == r.posted && r'.consumed == r.consumed;
    }
  }

  lemma MisledIsFalse(e: Pair, from: nat)
    requires Misled(e, from)
    ensures !AnswersTrue(e, from)
  {
    forall i | 0 <= i < |e.consumed| ensures e.consumed[i].tag < |e.fetched| {
      assert e.posted[i].tag < |e.fetched|;
    }
  }

  /** The condition in the caller's terms: with fewer than 256 calls since the oldest
    * one whose completion is still out, the CID is free. */
  lemma CidFreeWhenRecent(r: Pair)
    requires Inv(r)
    requires forall t :: 0 <= t < |r.submitted| && Out(r, t) && r.submitted[t].arm > 0 ==> r.arms + 1 - r.submitted[t].arm < 256
    ensures CidFree(r)
  {
    var cid := SyncCid(r.arms + 1);
    forall t | 0 <= t < |r.submitted| ensures !Carries(r, t, cid) {
      var e := r.submitted[t];
      assert CidOk(e, r.arms);
      if Out(r, t) && e.arm > 0 {
        NotCongruent(e.arm, r.arms + 1);
      }
    }
    assert NoneCarries(r, cid);
  }

  lemma NotCongruent(a: nat, b: nat)
    requires a < b < a + 256
    ensures a % 256 != b % 256
  {
  }
}
