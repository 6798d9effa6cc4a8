/** A synchronous command of src/rc_nvme.c is answered: once either consumer has taken
  * its completion, the caller has the status or has only to look. */
module RingHeard {
  import opened Ring
  import opened RingSync

  /** A caller that still waits for the handshake has not had its completion consumed, and
    * a handshake is armed only for a caller. */
  predicate Expecting(r: Pair) {
    && (r.caller.Waiting? && r.pending ==> !Tagged(r.consumed, r.caller.tag))
    && (r.pending ==> !r.caller.Idle?)
  }

  lemma TakenHead(r: Pair, t: nat)
    requires Inv(r) && CqeReady(r) && r.caller.Waiting? && t == r.caller.tag && r.cq[r.cqHead].tag == t
    ensures r.cq[r.cqHead].cid == r.syncCid && InSyncRange(r.syncCid)
  {
    HeadIsOut(r);
  }

  lemma TaggedGrows(log: seq<Cqe>, e: Cqe, t: nat)
    ensures Tagged(log + [e], t) <==> Tagged(log, t) || e.tag == t
  {
    if Tagged(log, t) {
      var i :| 0 <= i < |log| && log[i].tag == t;
      assert (log + [e])[i].tag == t;
    }
    if e.tag == t { assert (log + [e])[|log|].tag == t; }
    if Tagged(log + [e], t) && e.tag != t {
      var i :| 0 <= i < |log| + 1 && (log + [e])[i].tag == t;
      assert log[i].tag == t;
    }
  }

  /** A command just submitted has no completion yet. */
  lemma NewIsUntagged(r: Pair)
    requires Inv(r)
    ensures !Tagged(r.consumed, |r.submitted|)
  {
    forall i | 0 <= i < |r.consumed| ensures r.consumed[i].tag < |r.submitted| {
      assert r.posted[i].tag < |r.fetched|;
    }
  }

  lemma StepKeepsExpecting(r: Pair, l: Step)
    requires Inv(r) && Expecting(r) && Enabled(r, l)
    ensures Expecting(Apply(r, l))
  {
    match l
    case IrqConsume => ConsumeKeepsExpecting(r, l);
    case PollConsume => ConsumeKeepsExpecting(r, l);
    case SyncSubmit => NewIsUntagged(r);
    case _ =>
  }

  lemma ConsumeKeepsExpecting(r: Pair, l: Step)
    requires Inv(r) && Expecting(r) && Enabled(r, l) && (l.IrqConsume? || l.PollConsume?)
    ensures Expecting(Apply(r, l))
  {
    var e, r' := r.cq[r.cqHead], Apply(r, l);
    assert r'.consumed == r.consumed + [e];
    if r.caller.Waiting? {
      TaggedGrows(r.consumed, e, r.caller.tag);
      if e.tag == r.caller.tag { TakenHead(r, e.tag); }
    }
  }

  lemma {:induction false} RunKeepsExpecting(r: Pair, steps: seq<Step>)
    requires Inv(r) && Expecting(r) && Legal(r, steps)
    ensures Inv(Run(r, steps)) && Expecting(Run(r, steps))
    decreases |steps|
  {
    if steps != [] {
      StepKeepsInv(r, steps[0]);
      StepKeepsExpecting(r, steps[0]);
      RunKeepsExpecting(Apply(r, steps[0]), steps[1..]);
    }
  }

  /** In every run from a reset: a consumed completion of the waiting caller has satisfied
    * the handshake, so the caller's next look returns. */
  lemma ConsumedIsHandedOver(r: Pair, steps: seq<Step>)
    requires Fresh(r) && Legal(r, steps)
    ensures var e := Run(r, steps);
      e.caller.Waiting? && Tagged(e.consumed, e.caller.tag) ==> Enabled(e, SyncReturn)
  {
    FreshInv(r);
    RunKeepsExpecting(r, steps);
  }

  /** The poll loop takes completions of synchronous commands only; those of the block
    * layer stay for the handler. */
  lemma PolledIsSync(r: Pair)
    requires Inv(r) && Enabled(r, PollConsume)
    ensures var e := r.cq[r.cqHead]; e.tag < |r.submitted| && r.submitted[e.tag].arm > 0
  {
    HeadIsOut(r);
    assert CidOk(r.submitted[r.cq[r.cqHead].tag], r.arms);
  }

  // ---------- one call, from its arming on ----------

  predicate NoTimeout(steps: seq<Step>) {
    forall i :: 0 <= i < |steps| ==> !steps[i].SyncTimeout?
  }

  /** Command t has its answer. */
  predicate Answered(r: Pair, t: nat, from: nat) {
    exists k :: from <= k < |r.answers| && r.answers[k].tag == t
  }

  /** The command of call number arm is waited for or answered. */
  predicate Followed(r: Pair, arm: nat, from: nat) {
    && r.arms == arm > 0
    && forall t :: 0 <= t < |r.submitted| && r.submitted[t].arm == arm ==>
         !r.caller.Armed? && (r.caller == Waiting(t) || Answered(r, t, from))
  }

  lemma AnswerStays(r: Pair, r': Pair, t: nat, from: nat)
    requires Answered(r, t, from) && r.answers <= r'.answers
    ensures Answered(r', t, from)
  {
    var k :| from <= k < |r.answers| && r.answers[k].tag == t;
    assert r'.answers[k].tag == t;
  }

  lemma StepKeepsFollowed(r: Pair, l: Step, arm: nat, from: nat)
    requires Inv(r) && Followed(r, arm, from) && |r.answers| >= from
    requires Enabled(r, l) && !l.SyncArm? && !l.SyncTimeout?
    ensures Followed(Apply(r, l), arm, from) && |Apply(r, l).answers| >= from
  {
    var r' := Apply(r, l);
    forall t | 0 <= t < |r'.submitted| && r'.submitted[t].arm == arm
      ensures !r'.caller.Armed? && (r'.caller == Waiting(t) || Answered(r', t, from))
    {
      if t < |r.submitted| {
        assert r.submitted[t] == r'.submitted[t];
        if r.caller == Waiting(t) {
          WaitEnds(r, l, t, from);
        } else {
          AnswerStays(r, r', t, from);
        }
      }
    }
  }

  /** A wait without a timeout goes on or ends with an answer. */
  lemma WaitEnds(r: Pair, l: Step, t: nat, from: nat)
    requires Enabled(r, l) && !l.SyncArm? && !l.SyncTimeout? && r.caller == Waiting(t) && |r.answers| >= from
    ensures Apply(r, l).caller == Waiting(t) || Answered(Apply(r, l), t, from)
  {
    var r' := Apply(r, l);
    if r'.caller != Waiting(t) {
      assert r'.answers[|r.answers|].tag == t;
    }
  }

  lemma {:induction false} RunKeepsFollowed(r: Pair, steps: seq<Step>, arm: nat, from: nat)
    requires Inv(r) && Followed(r, arm, from) && |r.answers| >= from
    requires Legal(r, steps) && NoArm(steps) && NoTimeout(steps)
    ensures Followed(Run(r, steps), arm, from)
    decreases |steps|
  {
    if steps != [] {
      StepKeepsInv(r, steps[0]);
      StepKeepsFollowed(r, steps[0], arm, from);
      RunKeepsFollowed(Apply(r, steps[0]), steps[1..], arm, from);
    }
  }

  lemma ArmFollows(r: Pair)
    requires Inv(r) && Enabled(r, SyncArm)
    ensures Followed(Apply(r, SyncArm), r.arms + 1, |r.answers|)
  {
    forall t | 0 <= t < |r.submitted| ensures r.submitted[t].arm != r.arms + 1 {
      assert CidOk(r.submitted[t], r.arms);
    }
  }

  /** Command t of a call is over for its caller, or is with the next look: with the status
    * of its own completion. */
  predicate Heard(r: Pair, t: nat, from: nat) {
    || (r.caller == Waiting(t) && Enabled(r, SyncReturn) && Backed(r, Answer(t, r.syncSc)))
    || exists k :: from <= k < |r.answers| && r.answers[k].tag == t && Backed(r, r.answers[k])
  }

  /** A synchronous call made while its CID is free, in every continuation in which it does
    * not time out: as soon as the handler or the poll loop has consumed its completion, the
    * status of that completion has been returned or is returned by the next look. */
  lemma ConsumedIsHeard(r: Pair, steps: seq<Step>, t: nat)
    requires Inv(r) && Expecting(r) && Enabled(r, SyncArm) && CidFree(r)
    requires Legal(Apply(r, SyncArm), steps) && NoArm(steps) && NoTimeout(steps)
    requires var e := Run(Apply(r, SyncArm), steps);
      t < |e.submitted| && e.submitted[t].arm == r.arms + 1 && Tagged(e.consumed, t)
    ensures Heard(Run(Apply(r, SyncArm), steps), t, |r.answers|)
  {
    var r1 := Apply(r, SyncArm);
    ArmOwns(r);
    ArmFollows(r);
    StepKeepsExpecting(r, SyncArm);
    RunKeepsExpecting(r1, steps);
    RunKeepsFollowed(r1, steps, r.arms + 1, |r.answers|);
    RunKeepsOwned(r1, steps, |r.answers|);
    RunStaysOwned(r1, steps);
    Concludes(Run(r1, steps), r.arms + 1, |r.answers|, t);
  }

  lemma {:induction false} RunStaysOwned(r: Pair, steps: seq<Step>)
    requires Inv(r) && Owned(r) && Legal(r, steps) && NoArm(steps)
    ensures Owned(Run(r, steps))
    decreases |steps|
  {
    if steps != [] {
      StepKeepsInv(r, steps[0]);
      StepKeepsOwned(r, steps[0], |r.answers|);
      RunStaysOwned(Apply(r, steps[0]), steps[1..]);
    }
  }

  lemma Concludes(e: Pair, arm: nat, from: nat, t: nat)
    requires Expecting(e) && Owned(e) && Followed(e, arm, from) && AnswersTrue(e, from)
    requires t < |e.submitted| && e.submitted[t].arm == arm && Tagged(e.consumed, t)
    ensures Heard(e, t, from)
  {
    if e.caller != Waiting(t) {
      var k :| from <= k < |e.answers| && e.answers[k].tag == t;
      assert Backed(e, e.answers[k]);
    }
  }
}
