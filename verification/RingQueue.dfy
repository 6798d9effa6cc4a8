/** rc_nvme_io_queue as the driver keeps it: rings in arrays, indices, phase and
  * handshake updated in place, one method a critical section of q->lock. */
module RingQueue {
  import opened Ring
  import opened RingSync
  import opened RingHeard

  /** n completions taken by the interrupt handler, one after the other. */
  ghost predicate Drains(r: Pair, n: nat, e: Pair)
    decreases n
  {
    if n == 0 then e == r
    else exists m :: Drains(r, n - 1, m) && CqeReady(m) && e == Apply(m, IrqConsume)
  }

  /** n turns into the handler's loop. */
  ghost predicate Turned(was: Pair, n: nat, m: Pair) {
    && Drains(was, n, m)
    && m.posted == was.posted && |m.consumed| == |was.consumed| + n && m.inflight == was.inflight - n
    && |m.cq| == |was.cq| && m.cqHead < |m.cq|
  }

  lemma {:induction false} DrainsKeepsInv(was: Pair, n: nat, m: Pair)
    requires Inv(was) && Drains(was, n, m)
    ensures Inv(m)
    decreases n
  {
    if n > 0 {
      var k :| Drains(was, n - 1, k) && CqeReady(k) && m == Apply(k, IrqConsume);
      DrainsKeepsInv(was, n - 1, k);
      TakeKeeps(k, m);
    }
  }

  lemma TakeKeeps(k: Pair, m: Pair)
    requires Inv(k) && CqeReady(k) && m == Apply(k, IrqConsume)
    ensures Inv(m) && (Expecting(k) ==> Expecting(m))
  {
    IrqKeeps(k);
    if Expecting(k) { StepKeepsExpecting(k, IrqConsume); }
  }

  lemma {:induction false} DrainsKeepsExpecting(was: Pair, n: nat, m: Pair)
    requires Inv(was) && Expecting(was) && Drains(was, n, m)
    ensures Inv(m) && Expecting(m)
    decreases n
  {
    if n > 0 {
      var k :| Drains(was, n - 1, k) && CqeReady(k) && m == Apply(k, IrqConsume);
      DrainsKeepsExpecting(was, n - 1, k);
      TakeKeeps(k, m);
    }
  }

  lemma TurnOnce(was: Pair, n: nat, m: Pair, e: Pair)
    requires Inv(was) && Turned(was, n, m) && CqeReady(m) && e == Apply(m, IrqConsume)
    ensures Turned(was, n + 1, e)
    ensures 0 <= Unread(e) < Unread(m)
  {
    DrainsKeepsInv(was, n, m);
    CountNeverClamped(m, IrqConsume);
    PhaseBitTellsIff(m);
  }

  lemma TurnedAll(was: Pair, n: nat, m: Pair)
    requires Inv(was) && Turned(was, n, m) && !CqeReady(m)
    ensures Inv(m) && m.consumed == was.posted && n == Unread(was)
  {
    DrainsKeepsInv(was, n, m);
    PhaseBitTellsIff(m);
  }

  class IoQueue {
    const sq: array<Sqe>
    const cq: array<Cqe>
    var sqTail: nat
    var inflight: nat
    var cqHead: nat
    var cqPhase: bool
    var syncSeq: nat
    var syncCid: nat
    var pending: bool
    var syncSc: nat
    /** Names commands; the driver has no such counter. */
    var count: nat
    /** The controller, the callers and the history: every component of the state that
      * this structure does not hold. */
    ghost var others: Pair

    ghost function Model(): Pair
      reads this, sq, cq
    {
      others.(sqTail := sqTail, inflight := inflight, cqHead := cqHead, cqPhase := cqPhase,
              arms := syncSeq, syncCid := syncCid, pending := pending, syncSc := syncSc,
              sq := sq[..], cq := cq[..])
    }

    ghost predicate Valid()
      reads this, sq, cq
    {
      count == |others.submitted|
    }

    /** The queue as rc_nvme_reset_controller leaves it. */
    constructor (depth: nat)
      requires depth >= 2
      ensures Valid() && Fresh(Model()) && sq.Length == depth && fresh(sq) && fresh(cq)
    {
      sq := new Sqe[depth](_ => Sqe(0, 0, 0));
      cq := new Cqe[depth](_ => Cqe(0, 0, 0, false));
      sqTail, inflight, cqHead, cqPhase := 0, 0, 0, true;
      syncSeq, syncCid, pending, syncSc, count := 0, 0, false, 0, 0;
      others := Pair(0, 0, 0, true, 0, 0, false, 0, [], [], 0, 0, true, map[], 0, Idle, [], [], [], [], []);
    }

    /** rc_nvme_sq_reserve. */
    method Reserve(n: nat) returns (ok: bool)
      requires Valid()
      modifies this`inflight, this`others
      ensures Valid()
      ensures ok == CanReserve(old(Model()), n)
      ensures ok <==> old(inflight) + n < sq.Length
      ensures inflight == old(inflight) + (if ok then n else 0)
      ensures Model() == Apply(old(Model()), Step.Reserve(n))
    {
      ok := false;
      if sq.Length > n && inflight <= sq.Length - 1 - n {
        inflight := inflight + n;
        others := others.(reserved := others.reserved + n);
        ok := true;
      }
    }

    /** rc_nvme_sq_unreserve. */
    method Unreserve(n: nat)
      requires Valid() && Enabled(Model(), Step.Unreserve(n))
      modifies this`inflight, this`others
      ensures Valid() && Model() == Apply(old(Model()), Step.Unreserve(n))
      ensures inflight == if old(inflight) >= n then old(inflight) - n else 0
    {
      inflight := if inflight >= n then inflight - n else 0;
      others := others.(reserved := others.reserved - n);
    }

    /** Write at the tail and move it. */
    method Enqueue(cid: nat, arm: nat)
      requires Valid() && sqTail < sq.Length
      modifies this`sqTail, this`count, this`others, sq
      ensures Valid() && Model() == Push(old(Model()), cid, arm)
      ensures sq[..] == old(sq[..])[old(sqTail) := Sqe(old(count), cid, arm)]
      ensures sqTail == (if old(sqTail) + 1 == sq.Length then 0 else old(sqTail) + 1) && count == old(count) + 1
    {
      ghost var was := sq[..];
      sq[sqTail] := Sqe(count, cid, arm);
      assert sq[..] == was[sqTail := Sqe(count, cid, arm)];
      assert sqTail + 1 == sq.Length ==> (sqTail + 1) % sq.Length == 0;
      sqTail := (sqTail + 1) % sq.Length;
      others := others.(submitted := others.submitted + [Sqe(count, cid, arm)]);
      count := count + 1;
    }

    /** rc_nvme_io_submit, by a block-layer caller holding a slot. */
    method Submit(cid: nat)
      requires Valid() && Enabled(Model(), Step.Submit(cid))
      modifies this`sqTail, this`count, this`others, sq
      ensures Valid() && Model() == Apply(old(Model()), Step.Submit(cid))
      ensures sq[..] == old(sq[..])[old(sqTail) := Sqe(old(count), cid, 0)]
      ensures sqTail == if old(sqTail) + 1 == sq.Length then 0 else old(sqTail) + 1
    {
      Enqueue(cid, 0);
      others := others.(reserved := others.reserved - 1);
    }

    /** The arming critical section of rc_nvme_io_cmd_sync. */
    method ArmSync() returns (ok: bool)
      requires Valid() && others.caller.Idle?
      modifies this`inflight, this`syncSeq, this`syncCid, this`pending, this`syncSc, this`others
      ensures Valid()
      ensures ok == Enabled(old(Model()), SyncArm)
      ensures ok <==> old(inflight) + 1 < sq.Length
      ensures ok ==> inflight == old(inflight) + 1 && syncSeq == old(syncSeq) + 1
      ensures ok ==> pending && syncSc == 0 && syncCid == 0x400 + syncSeq % 256
      ensures Model() == if ok then Apply(old(Model()), SyncArm) else old(Model())
    {
      if sq.Length <= 1 || inflight > sq.Length - 2 { return false; }
      inflight := inflight + 1;
      syncSeq := syncSeq + 1;
      syncCid := SyncCid(syncSeq);
      pending := true;
      syncSc := 0;
      others := others.(caller := Armed);
      return true;
    }

    method SubmitSync()
      requires Valid() && Enabled(Model(), SyncSubmit)
      modifies this`sqTail, this`count, this`others, sq
      ensures Valid() && Model() == Apply(old(Model()), SyncSubmit)
      ensures sq[..] == old(sq[..])[old(sqTail) := Sqe(old(count), syncCid, syncSeq)]
      ensures sqTail == if old(sqTail) + 1 == sq.Length then 0 else old(sqTail) + 1
    {
      ghost var tag := count;
      Enqueue(syncCid, syncSeq);
      others := others.(caller := Waiting(tag));
    }

    /** Both consumers: one slot free, head on, phase flipped on wrap. */
    method TakeHead()
      requires Valid() && cqHead < cq.Length
      modifies this`inflight, this`cqHead, this`cqPhase, this`others
      ensures Valid() && Model() == Advance(old(Model()))
      ensures inflight == (if old(inflight) > 0 then old(inflight) - 1 else 0)
      ensures cqHead == (if old(cqHead) + 1 == cq.Length then 0 else old(cqHead) + 1)
      ensures cqPhase <==> (if cqHead == 0 then !old(cqPhase) else old(cqPhase))
    {
      ghost var e := cq[cqHead];
      if inflight > 0 { inflight := inflight - 1; }
      assert cqHead + 1 == cq.Length ==> (cqHead + 1) % cq.Length == 0;
      cqHead := (cqHead + 1) % cq.Length;
      if cqHead == 0 { cqPhase := !cqPhase; }
      others := others.(consumed := others.consumed + [e]);
    }

    /** One turn of the interrupt handler's loop. */
    method TakeOne()
      requires Valid() && CqeReady(Model())
      modifies this`inflight, this`cqHead, this`cqPhase, this`pending, this`syncSc, this`others
      ensures Valid() && Model() == Apply(old(Model()), IrqConsume)
      ensures var own := old(pending) && cq[old(cqHead)].cid == syncCid && cq[old(cqHead)].cid / 256 == 4;
        (pending <==> old(pending) && !own) && syncSc == if own then cq[old(cqHead)].status else old(syncSc)
      ensures cqHead == (if old(cqHead) + 1 == cq.Length then 0 else old(cqHead) + 1)
    {
      var e := cq[cqHead];
      if e.cid / 256 == 4 {
        if pending && e.cid == syncCid {
          syncSc := e.status;
          pending := false;
        }
      }
      TakeHead();
    }

    /** The loop of rc_nvme_io_queue_irq: every posted completion is taken, in order,
      * and nothing else happens. */
    method Irq()
      requires Valid() && Inv(Model())
      modifies this`inflight, this`cqHead, this`cqPhase, this`pending, this`syncSc, this`others
      ensures Valid() && Inv(Model())
      ensures Drains(old(Model()), |old(others).posted| - |old(others).consumed|, Model())
      ensures others.consumed == old(others).posted && !CqeReady(Model())
      ensures Expecting(old(Model())) ==> Expecting(Model())
      ensures inflight == old(inflight) - (|old(others).posted| - |old(others).consumed|)
    {
      ghost var was, m, n := Model(), Model(), 0;
      while cq[cqHead].phase == cqPhase
        invariant Valid() && cqHead < cq.Length
        invariant m == Model() && Turned(was, n, m)
        decreases Unread(m)
      {
        TakeOne();
        TurnOnce(was, n, m, Model());
        m, n := Model(), n + 1;
      }
      TurnedAll(was, n, m);
      if Expecting(was) { DrainsKeepsExpecting(was, n, m); }
    }

    /** One critical section of the synchronous caller's poll loop: the handler's claim,
      * or the head of the ring if it is in the synchronous range, or nothing. */
    method Poll() returns (done: bool, status: nat)
      requires Valid() && Inv(Model()) && others.caller.Waiting?
      modifies this`inflight, this`cqHead, this`cqPhase, this`pending, this`others
      ensures Valid()
      ensures
        Model() == if !old(pending) then Apply(old(Model()), SyncReturn)
        else if Enabled(old(Model()), PollConsume) then Apply(old(Model()), PollConsume)
        else old(Model())
      ensures var e := cq[old(cqHead)];
        var mine := old(pending) && e.phase == old(cqPhase) && 0x400 <= e.cid < 0x500;
        && (done <==> !old(pending) || (mine && e.cid == syncCid))
        && (done ==> status == if old(pending) then e.status else syncSc)
        && others.consumed == old(others).consumed + (if mine then [e] else [])
        && (pending <==> old(pending) && !done)
      ensures done <==> others.caller.Idle?
      ensures done ==> others.answers == old(others).answers + [Answer(old(others).caller.tag, status)]
    {
      done, status := false, 0;
      if !pending {
        status := syncSc;
        done := true;
        others := others.(answers := others.answers + [Answer(others.caller.tag, status)], caller := Idle);
      } else {
        done, status := PollHead();
      }
    }

    /** Its look at the head of the ring, the handshake being armed. */
    method PollHead() returns (done: bool, status: nat)
      requires Valid() && others.caller.Waiting? && pending && cqHead < cq.Length
      modifies this`inflight, this`cqHead, this`cqPhase, this`pending, this`others
      ensures Valid()
      ensures Model() == if Enabled(old(Model()), PollConsume) then Apply(old(Model()), PollConsume) else old(Model())
      ensures var e := cq[old(cqHead)]; var mine := e.phase == old(cqPhase) && 0x400 <= e.cid < 0x500;
        && (done <==> mine && e.cid == syncCid) && (done ==> status == e.status)
        && others.consumed == old(others).consumed + (if mine then [e] else [])
        && (pending <==> !done) && (done <==> others.caller.Idle?)
        && (done ==> others.answers == old(others).answers + [Answer(old(others).caller.tag, status)])
    {
      done, status := false, 0;
      var e := cq[cqHead];
      if e.phase == cqPhase && e.cid / 256 == 4 {
        if e.cid == syncCid {
          status := e.status;
          pending := false;
          done := true;
          others := others.(answers := others.answers + [Answer(others.caller.tag, status)], caller := Idle);
        }
        TakeHead();
      }
    }
  }
}
