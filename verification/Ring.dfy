/** One I/O queue pair of src/rc_nvme.c between two resets: slot reservation, the
  * submission ring, the phase-bit completion ring with its two consumers (the
  * interrupt handler and the polling synchronous caller), and the controller on the
  * other side.  Steps are critical sections of q->lock and single controller actions. */
module Ring {
  import opened Common

  /** tag: the command's position in the order of submission; it stands for the
    * identity of the command and is on neither wire format.  arm: which synchronous
    * call made it. */
  datatype Sqe = Sqe(tag: nat, cid: nat, arm: nat)
  datatype Cqe = Cqe(tag: nat, cid: nat, status: nat, phase: bool)

  /** The one caller of rc_nvme_io_cmd_sync on this queue. */
  datatype Caller = Idle | Armed | Waiting(tag: nat)
  datatype Answer = Answer(tag: nat, status: nat)

  datatype Pair = Pair(
    // rc_nvme_io_queue
    sqTail: nat, inflight: nat, cqHead: nat, cqPhase: bool,
    arms: nat, syncCid: nat, pending: bool, syncSc: nat,
    // DMA memory
    sq: seq<Sqe>, cq: seq<Cqe>,
    // the controller's own head, tail, phase and running commands (tag to CID)
    sqHead: nat, cqTail: nat, ctlPhase: bool, running: map<nat, nat>,
    // who holds what, and what happened
    reserved: nat, caller: Caller,
    submitted: seq<Sqe>, fetched: seq<Sqe>, posted: seq<Cqe>, consumed: seq<Cqe>, answers: seq<Answer>)

  datatype Step =
    | Reserve(n: nat) | Unreserve(n: nat) | Submit(cid: nat)
    | Fetch | Post(tag: nat, status: nat)
    | IrqConsume | PollConsume
    | SyncArm | SyncSubmit | SyncReturn | SyncTimeout

  // ---------- ring arithmetic ----------

  /** i places after h in a ring of d. */
  function Slot(h: nat, i: nat, d: nat): (s: nat)
    requires h < d && i <= d
    ensures s < d
  {
    if h + i < d then h + i else h + i - d
  }

  function Next(h: nat, d: nat): (s: nat)
    requires h < d
    ensures s == Slot(h, 1, d)
  {
    assert h + 1 == d ==> (h + 1) % d == 0;
    (h + 1) % d
  }

  // ---------- synchronous CIDs ----------

  /** 0x400 | (sync_seq & 0xFF), sync_seq a 16-bit counter. */
  function SyncCid(arms: nat): (cid: nat)
    ensures InSyncRange(cid)
    ensures cid == 1024 + arms % 256
  {
    1024 + arms % 65536 % 256
  }

  /** (cid & 0xFF00) == 0x400. */
  predicate InSyncRange(cid: nat) {
    cid / 256 == 4
  }

  // ---------- the steps ----------

  predicate CanReserve(r: Pair, n: nat) {
    |r.sq| > n && r.inflight <= |r.sq| - 1 - n
  }

  predicate CqeReady(r: Pair) {
    r.cqHead < |r.cq| && r.cq[r.cqHead].phase == r.cqPhase
  }

  predicate Enabled(r: Pair, l: Step) {
    match l
    case Reserve(n) => true
    case Unreserve(n) => n <= r.reserved
    case Submit(cid) => r.reserved > 0 && cid < 256 && r.sqTail < |r.sq|
    case Fetch => r.sqHead < |r.sq| && r.sqHead != r.sqTail
    case Post(tag, status) => tag in r.running && r.cqTail < |r.cq|
    case IrqConsume => CqeReady(r)
    case PollConsume => r.caller.Waiting? && r.pending && CqeReady(r) && InSyncRange(r.cq[r.cqHead].cid)
    case SyncArm => r.caller.Idle? && |r.sq| > 1 && r.inflight <= |r.sq| - 2
    case SyncSubmit => r.caller.Armed? && r.sqTail < |r.sq|
    case SyncReturn => r.caller.Waiting? && !r.pending
    case SyncTimeout => r.caller.Waiting?
  }

  /** rc_nvme_io_submit: write at the tail, whatever is there, and move it. */
  function Push(r: Pair, cid: nat, arm: nat): Pair
    requires r.sqTail < |r.sq|
  {
    var e := Sqe(|r.submitted|, cid, arm);
    r.(sq := r.sq[r.sqTail := e], sqTail := Next(r.sqTail, |r.sq|), submitted := r.submitted + [e])
  }

  /** What both consumers do after looking at the entry at the head. */
  function Advance(r: Pair): Pair
    requires r.cqHead < |r.cq|
  {
    var h := Next(r.cqHead, |r.cq|);
    r.(inflight := if r.inflight > 0 then r.inflight - 1 else 0,
       cqHead := h, cqPhase := if h == 0 then !r.cqPhase else r.cqPhase,
       consumed := r.consumed + [r.cq[r.cqHead]])
  }

  /** The interrupt handler's claim of a synchronous completion. */
  function Claim(r: Pair, e: Cqe): Pair {
    if InSyncRange(e.cid) && r.pending && e.cid == r.syncCid then r.(syncSc := e.status, pending := false) else r
  }

  function Finish(r: Pair, status: nat): Pair
    requires r.caller.Waiting?
  {
    r.(answers := r.answers + [Answer(r.caller.tag, status)], caller := Idle, pending := false)
  }

  function Complete(r: Pair, tag: nat, status: nat): Pair
    requires tag in r.running && r.cqTail < |r.cq|
  {
    var e := Cqe(tag, r.running[tag], status, r.ctlPhase);
    var t := Next(r.cqTail, |r.cq|);
    r.(cq := r.cq[r.cqTail := e], cqTail := t, ctlPhase := if t == 0 then !r.ctlPhase else r.ctlPhase,
       running := r.running - {tag}, posted := r.posted + [e])
  }

  function Apply(r: Pair, l: Step): Pair
    requires Enabled(r, l)
  {
    match l
    case Reserve(n) =>
      if CanReserve(r, n) then r.(inflight := r.inflight + n, reserved := r.reserved + n) else r
    case Unreserve(n) =>
      r.(inflight := if r.inflight >= n then r.inflight - n else 0, reserved := r.reserved - n)
    case Submit(cid) => Push(r, cid, 0).(reserved := r.reserved - 1)
    case Fetch =>
      var e := r.sq[r.sqHead];
      r.(sqHead := Next(r.sqHead, |r.sq|), running := r.running[e.tag := e.cid], fetched := r.fetched + [e])
    case Post(tag, status) => Complete(r, tag, status)
    case IrqConsume => Advance(Claim(r, r.cq[r.cqHead]))
    case PollConsume =>
      var e := r.cq[r.cqHead];
      Advance(if e.cid == r.syncCid then Finish(r, e.status) else r)
    case SyncArm =>
      r.(inflight := r.inflight + 1, arms := r.arms + 1, syncCid := SyncCid(r.arms + 1),
         pending := true, syncSc := 0, caller := Armed)
    case SyncSubmit => Push(r, r.syncCid, r.arms).(caller := Waiting(|r.submitted|))
    case SyncReturn => Finish(r, r.syncSc)
    case SyncTimeout => r.(caller := Idle, pending := false)
  }

  /** After rc_nvme_reset_controller: both rings zeroed, phase 1 expected, nothing held. */
  predicate Fresh(r: Pair) {
    && |r.sq| >= 2 && |r.cq| == |r.sq|
    && r.sqTail == 0 && r.inflight == 0 && r.cqHead == 0 && r.cqPhase
    && !r.pending && r.caller == Idle && r.reserved == 0
    && (forall i :: 0 <= i < |r.cq| ==> !r.cq[i].phase)
    && r.sqHead == 0 && r.cqTail == 0 && r.ctlPhase && r.running == map[]
    && r.submitted == [] && r.fetched == [] && r.posted == [] && r.consumed == [] && r.answers == []
  }

  // ---------- runs ----------

  predicate Legal(r: Pair, steps: seq<Step>)
    decreases |steps|
  {
    steps == [] || (Enabled(r, steps[0]) && Legal(Apply(r, steps[0]), steps[1..]))
  }

  function Run(r: Pair, steps: seq<Step>): Pair
    requires Legal(r, steps)
    decreases |steps|
  {
    if steps == [] then r else Run(Apply(r, steps[0]), steps[1..])
  }

  // ---------- the invariant ----------

  function Waits(r: Pair): int { |r.submitted| - |r.fetched| }
  function Unread(r: Pair): int { |r.posted| - |r.consumed| }

  /** One slot per reservation, per waiting, running and unread command. */
  predicate Counted(r: Pair) {
    && r.inflight == r.reserved + (if r.caller.Armed? then 1 else 0) + Waits(r) + |r.running| + Unread(r)
    && r.inflight < |r.sq| == |r.cq|
  }

  /** From head h on, n entries of the log, starting at its entry k. */
  predicate Holds(mem: seq<Sqe>, h: nat, n: nat, log: seq<Sqe>, k: nat) {
    && h < |mem| && n < |mem| && k + n == |log|
    && forall i {:trigger Slot(h, i, |mem|)} :: 0 <= i < n ==> mem[Slot(h, i, |mem|)] == log[k + i]
  }

  predicate SqFine(sq: seq<Sqe>, head: nat, tail: nat, submitted: seq<Sqe>, fetched: seq<Sqe>) {
    && |fetched| <= |submitted|
    && fetched == submitted[..|fetched|]
    && Holds(sq, head, |submitted| - |fetched|, submitted, |fetched|)
    && tail == Slot(head, |submitted| - |fetched|, |sq|)
    && (forall t :: 0 <= t < |submitted| ==> submitted[t].tag == t)
  }

  predicate SqOk(r: Pair) {
    SqFine(r.sq, r.sqHead, r.sqTail, r.submitted, r.fetched)
  }

  /** The phase a new entry i places past the head carries. */
  predicate PhaseAt(h: nat, i: nat, d: nat, phase: bool) {
    if h + i < d then phase else !phase
  }

  predicate Phased(mem: seq<Cqe>, h: nat, phase: bool, n: nat, log: seq<Cqe>, k: nat) {
    && h < |mem| && n < |mem| && k + n == |log|
    && (forall i {:trigger Slot(h, i, |mem|)} :: 0 <= i < n ==> mem[Slot(h, i, |mem|)] == log[k + i])
    && (forall i {:trigger Slot(h, i, |mem|)} ::
          0 <= i < |mem| ==> (mem[Slot(h, i, |mem|)].phase == PhaseAt(h, i, |mem|, phase) <==> i < n))
  }

  predicate CqFine(cq: seq<Cqe>, head: nat, phase: bool, tail: nat, tailPhase: bool, posted: seq<Cqe>, consumed: seq<Cqe>) {
    && |consumed| <= |posted|
    && consumed == posted[..|consumed|]
    && Phased(cq, head, phase, |posted| - |consumed|, posted, |consumed|)
    && tail == Slot(head, |posted| - |consumed|, |cq|)
    && tailPhase == PhaseAt(head, |posted| - |consumed|, |cq|, phase)
  }

  predicate CqOk(r: Pair) {
    CqFine(r.cq, r.cqHead, r.cqPhase, r.cqTail, r.ctlPhase, r.posted, r.consumed)
  }

  /** Every fetched command is running or has posted exactly one completion of its own. */
  predicate OncePosted(fetched: seq<Sqe>, running: map<nat, nat>, posted: seq<Cqe>) {
    && |running| + |posted| == |fetched|
    && (forall t :: t in running ==> t < |fetched| && fetched[t].cid == running[t])
    && (forall i :: 0 <= i < |posted| ==> posted[i].tag < |fetched| && posted[i].tag !in running)
    && (forall i :: 0 <= i < |posted| && posted[i].tag < |fetched| ==> fetched[posted[i].tag].cid == posted[i].cid)
    && (forall i, j :: 0 <= i < j < |posted| ==> posted[i].tag != posted[j].tag)
  }

  /** CIDs: block-layer tags below 256, synchronous ones by call number; each
    * synchronous call submits at most once. */
  predicate CidsOk(r: Pair) {
    && CidsFit(r.submitted, r.arms)
    && (!r.caller.Idle? ==> r.arms > 0 && r.syncCid == SyncCid(r.arms))
    && (r.caller.Waiting? ==> r.caller.tag < |r.submitted| && r.submitted[r.caller.tag].cid == r.syncCid)
  }

  predicate CidsFit(submitted: seq<Sqe>, arms: nat) {
    forall t :: 0 <= t < |submitted| ==> CidOk(submitted[t], arms)
  }

  predicate CidOk(e: Sqe, arms: nat) {
    if e.arm == 0 then e.cid < 256 else e.arm <= arms && e.cid == SyncCid(e.arm)
  }

  predicate Inv(r: Pair) {
    && Counted(r)
    && SqOk(r)
    && CqOk(r)
    && OncePosted(r.fetched, r.running, r.posted)
    && CidsOk(r)
  }

  lemma FreshInv(r: Pair)
    requires Fresh(r)
    ensures Inv(r)
  {
  }

  // ---------- the two rings ----------

  lemma SlotNext(h: nat, i: nat, d: nat)
    requires h < d && i < d
    ensures Slot(Next(h, d), i, d) == Slot(h, i + 1, d)
    ensures Next(Slot(h, i, d), d) == Slot(h, i + 1, d)
  {
  }

  lemma SlotsDiffer(h: nat, i: nat, j: nat, d: nat)
    requires h < d && i < d && j < d && i != j
    ensures Slot(h, i, d) != Slot(h, j, d)
  {
  }

  lemma PushHolds(mem: seq<Sqe>, h: nat, n: nat, log: seq<Sqe>, k: nat, e: Sqe)
    requires Holds(mem, h, n, log, k) && n + 1 < |mem|
    ensures Holds(mem[Slot(h, n, |mem|) := e], h, n + 1, log + [e], k)
  {
    forall i | 0 <= i < n ensures Slot(h, i, |mem|) != Slot(h, n, |mem|) {
      SlotsDiffer(h, i, n, |mem|);
    }
  }

  lemma PopHolds(mem: seq<Sqe>, h: nat, n: nat, log: seq<Sqe>, k: nat)
    requires Holds(mem, h, n, log, k) && n > 0
    ensures mem[h] == log[k]
    ensures Holds(mem, Next(h, |mem|), n - 1, log, k + 1)
  {
    var d := |mem|;
    assert Slot(h, 0, d) == h;
    forall i | 0 <= i < n - 1 ensures mem[Slot(Next(h, d), i, d)] == log[k + 1 + i] {
      SlotNext(h, i, d);
    }
  }

  lemma PushPhased(mem: seq<Cqe>, h: nat, phase: bool, n: nat, log: seq<Cqe>, k: nat, e: Cqe)
    requires Phased(mem, h, phase, n, log, k) && n + 1 < |mem|
    requires e.phase == PhaseAt(h, n, |mem|, phase)
    ensures Phased(mem[Slot(h, n, |mem|) := e], h, phase, n + 1, log + [e], k)
  {
    forall i | 0 <= i < |mem| && i != n ensures Slot(h, i, |mem|) != Slot(h, n, |mem|) {
      SlotsDiffer(h, i, n, |mem|);
    }
  }

  lemma PopPhased(mem: seq<Cqe>, h: nat, phase: bool, n: nat, log: seq<Cqe>, k: nat)
    requires Phased(mem, h, phase, n, log, k) && n > 0
    ensures mem[h] == log[k]
    ensures Phased(mem, Next(h, |mem|), if Next(h, |mem|) == 0 then !phase else phase, n - 1, log, k + 1)
  {
    var d := |mem|;
    assert Slot(h, 0, d) == h;
    var h', p' := Next(h, d), if Next(h, d) == 0 then !phase else phase;
    forall i | 0 <= i < n - 1 ensures mem[Slot(h', i, d)] == log[k + 1 + i] {
      SlotNext(h, i, d);
    }
    forall i | 0 <= i < d ensures mem[Slot(h', i, d)].phase == PhaseAt(h', i, d, p') <==> i < n - 1 {
      if i == d - 1 {
        assert Slot(h', i, d) == h;
      } else {
        SlotNext(h, i, d);
        assert PhaseAt(h', i, d, p') == PhaseAt(h, i + 1, d, phase);
      }
    }
  }

  /** The phase bit alone tells both consumers whether the controller has written at
    * the head, and what they find there is the oldest completion not yet taken. */
  lemma PhaseBitTellsIff(r: Pair)
    requires Inv(r)
    ensures CqeReady(r) <==> |r.consumed| < |r.posted|
    ensures CqeReady(r) ==> r.cq[r.cqHead] == r.posted[|r.consumed|]
  {
    assert Slot(r.cqHead, 0, |r.cq|) == r.cqHead;
  }

  /** The tail meets the controller's head only when nothing waits: no submission lands
    * on an entry that was not fetched, and no posting on one that was not consumed. */
  lemma NothingOverwritten(r: Pair, l: Step)
    requires Inv(r) && Enabled(r, l)
    ensures r.sqHead == r.sqTail <==> |r.fetched| == |r.submitted|
    ensures
      l.Submit? || l.SyncSubmit? ==>
        forall i {:trigger Slot(r.sqHead, i, |r.sq|)} :: 0 <= i < Waits(r) ==> Slot(r.sqHead, i, |r.sq|) != r.sqTail
    ensures
      l.Post? ==>
        Unread(r) + 1 < |r.cq| &&
        forall i {:trigger Slot(r.cqHead, i, |r.cq|)} :: 0 <= i < Unread(r) ==> Slot(r.cqHead, i, |r.cq|) != r.cqTail
  {
    forall i | 0 <= i < Waits(r) ensures Slot(r.sqHead, i, |r.sq|) != r.sqTail {
      SlotsDiffer(r.sqHead, i, Waits(r), |r.sq|);
    }
    assert Slot(r.sqHead, 0, |r.sq|) == r.sqHead;
    if l.Post? {
      assert |r.running| >= 1 by { RunningIsSome(r.running, l.tag); }
      forall i | 0 <= i < Unread(r) ensures Slot(r.cqHead, i, |r.cq|) != r.cqTail {
        SlotsDiffer(r.cqHead, i, Unread(r), |r.cq|);
      }
    }
  }

  lemma RunningIsSome(m: map<nat, nat>, t: nat)
    requires t in m
    ensures |m| >= 1 && |m - {t}| == |m| - 1
  {
    var s := m - {t};
    assert m == s[t := m[t]];
  }

  /** Neither `if (q->sq_inflight)` nor the floor in unreserve is ever reached at zero. */
  lemma CountNeverClamped(r: Pair, l: Step)
    requires Inv(r) && Enabled(r, l)
    ensures l.Unreserve? ==> r.inflight >= l.n
    ensures l.IrqConsume? || l.PollConsume? ==> r.inflight > 0
  {
    PhaseBitTellsIff(r);
  }

  // ---------- every step keeps the invariant ----------

  lemma PushFine(sq: seq<Sqe>, head: nat, tail: nat, submitted: seq<Sqe>, fetched: seq<Sqe>, e: Sqe)
    requires SqFine(sq, head, tail, submitted, fetched) && |submitted| - |fetched| + 1 < |sq| && e.tag == |submitted|
    ensures SqFine(sq[tail := e], head, Next(tail, |sq|), submitted + [e], fetched)
  {
    PushHolds(sq, head, |submitted| - |fetched|, submitted, |fetched|, e);
    SlotNext(head, |submitted| - |fetched|, |sq|);
  }

  lemma PopFine(sq: seq<Sqe>, head: nat, tail: nat, submitted: seq<Sqe>, fetched: seq<Sqe>)
    requires SqFine(sq, head, tail, submitted, fetched) && |fetched| < |submitted|
    ensures sq[head] == submitted[|fetched|]
    ensures SqFine(sq, Next(head, |sq|), tail, submitted, fetched + [sq[head]])
  {
    PopHolds(sq, head, |submitted| - |fetched|, submitted, |fetched|);
    SlotNext(head, |submitted| - |fetched| - 1, |sq|);
  }

  lemma PostFine(cq: seq<Cqe>, head: nat, phase: bool, tail: nat, tailPhase: bool, posted: seq<Cqe>, consumed: seq<Cqe>, e: Cqe)
    requires CqFine(cq, head, phase, tail, tailPhase, posted, consumed)
    requires |posted| - |consumed| + 1 < |cq| && e.phase == tailPhase
    ensures
      var t := Next(tail, |cq|);
      CqFine(cq[tail := e], head, phase, t, if t == 0 then !tailPhase else tailPhase, posted + [e], consumed)
  {
    PushPhased(cq, head, phase, |posted| - |consumed|, posted, |consumed|, e);
    SlotNext(head, |posted| - |consumed|, |cq|);
  }

  lemma TakeFine(cq: seq<Cqe>, head: nat, phase: bool, tail: nat, tailPhase: bool, posted: seq<Cqe>, consumed: seq<Cqe>)
    requires CqFine(cq, head, phase, tail, tailPhase, posted, consumed) && |consumed| < |posted|
    ensures cq[head] == posted[|consumed|]
    ensures
      var h := Next(head, |cq|);
      CqFine(cq, h, if h == 0 then !phase else phase, tail, tailPhase, posted, consumed + [cq[head]])
  {
    PopPhased(cq, head, phase, |posted| - |consumed|, posted, |consumed|);
    SlotNext(head, |posted| - |consumed| - 1, |cq|);
  }

  lemma CidsGrow(submitted: seq<Sqe>, arms: nat, e: Sqe)
    requires CidsFit(submitted, arms) && CidOk(e, arms)
    ensures CidsFit(submitted + [e], arms)
  {
  }

  lemma CidsWiden(submitted: seq<Sqe>, arms: nat)
    requires CidsFit(submitted, arms)
    ensures CidsFit(submitted, arms + 1)
  {
    forall t | 0 <= t < |submitted| ensures CidOk(submitted[t], arms + 1) {
      assert CidOk(submitted[t], arms);
    }
  }

  lemma SubmitKeeps(r: Pair, cid: nat, arm: nat, r': Pair)
    requires Inv(r) && Waits(r) + 1 < |r.sq| && CidOk(Sqe(|r.submitted|, cid, arm), r.arms)
    requires r' == Push(r, cid, arm)
    ensures SqOk(r') && CqOk(r') && OncePosted(r'.fetched, r'.running, r'.posted) && CidsFit(r'.submitted, r'.arms)
    ensures |r'.sq| == |r.sq| && Waits(r') == Waits(r) + 1
  {
    var e := Sqe(|r.submitted|, cid, arm);
    PushFine(r.sq, r.sqHead, r.sqTail, r.submitted, r.fetched, e);
    CidsGrow(r.submitted, r.arms, e);
  }

  lemma FetchedOnce(fetched: seq<Sqe>, running: map<nat, nat>, posted: seq<Cqe>, e: Sqe)
    requires OncePosted(fetched, running, posted) && e.tag == |fetched|
    ensures OncePosted(fetched + [e], running[e.tag := e.cid], posted)
    ensures |running[e.tag := e.cid]| == |running| + 1
  {
    assert e.tag !in running;
  }

  lemma PostedOnce(fetched: seq<Sqe>, running: map<nat, nat>, posted: seq<Cqe>, e: Cqe)
    requires OncePosted(fetched, running, posted) && e.tag in running && e.cid == running[e.tag]
    ensures OncePosted(fetched, running - {e.tag}, posted + [e])
  {
    RunningIsSome(running, e.tag);
  }

  lemma FetchKeeps(r: Pair)
    requires Inv(r) && Enabled(r, Fetch)
    ensures Inv(Apply(r, Fetch))
  {
    NothingOverwritten(r, Fetch);
    PopFine(r.sq, r.sqHead, r.sqTail, r.submitted, r.fetched);
    FetchedOnce(r.fetched, r.running, r.posted, r.sq[r.sqHead]);
  }

  lemma PostKeeps(r: Pair, tag: nat, status: nat)
    requires Inv(r) && Enabled(r, Post(tag, status))
    ensures Inv(Apply(r, Post(tag, status)))
  {
    RunningIsSome(r.running, tag);
    var e := Cqe(tag, r.running[tag], status, r.ctlPhase);
    PostFine(r.cq, r.cqHead, r.cqPhase, r.cqTail, r.ctlPhase, r.posted, r.consumed, e);
    PostedOnce(r.fetched, r.running, r.posted, e);
  }

  lemma AdvanceKeeps(r: Pair)
    requires Inv(r) && CqeReady(r)
    ensures Inv(Advance(r))
  {
    PhaseBitTellsIff(r);
    TakeFine(r.cq, r.cqHead, r.cqPhase, r.cqTail, r.ctlPhase, r.posted, r.consumed);
  }

  lemma IrqKeeps(r: Pair)
    requires Inv(r) && CqeReady(r)
    ensures Inv(Apply(r, IrqConsume))
  {
    AdvanceKeeps(Claim(r, r.cq[r.cqHead]));
  }

  lemma PollKeeps(r: Pair)
    requires Inv(r) && Enabled(r, PollConsume)
    ensures Inv(Apply(r, PollConsume))
  {
    var e := r.cq[r.cqHead];
    AdvanceKeeps(if e.cid == r.syncCid then Finish(r, e.status) else r);
  }

  lemma BlockSubmitKeeps(r: Pair, cid: nat)
    requires Inv(r) && Enabled(r, Submit(cid))
    ensures Inv(Apply(r, Submit(cid)))
  {
    SubmitKeeps(r, cid, 0, Push(r, cid, 0));
  }

  lemma SyncSubmitKeeps(r: Pair)
    requires Inv(r) && Enabled(r, SyncSubmit)
    ensures Inv(Apply(r, SyncSubmit))
  {
    SubmitKeeps(r, r.syncCid, r.arms, Push(r, r.syncCid, r.arms));
  }

  lemma CallerKeeps(r: Pair, l: Step)
    requires Inv(r) && Enabled(r, l) && (l.SyncArm? || l.SyncReturn? || l.SyncTimeout?)
    ensures Inv(Apply(r, l))
  {
    CidsWiden(r.submitted, r.arms);
  }

  lemma SlotsKeep(r: Pair, l: Step)
    requires Inv(r) && Enabled(r, l) && (l.Reserve? || l.Unreserve?)
    ensures Inv(Apply(r, l))
  {
  }

  lemma StepKeepsInv(r: Pair, l: Step)
    requires Inv(r) && Enabled(r, l)
    ensures Inv(Apply(r, l))
  {
    match l
    case Submit(cid) => BlockSubmitKeeps(r, cid);
    case SyncSubmit => SyncSubmitKeeps(r);
    case Fetch => FetchKeeps(r);
    case Post(tag, status) => PostKeeps(r, tag, status);
    case IrqConsume => IrqKeeps(r);
    case PollConsume => PollKeeps(r);
    case SyncArm => CallerKeeps(r, l);
    case SyncReturn => CallerKeeps(r, l);
    case SyncTimeout => CallerKeeps(r, l);
    case Reserve(n) => SlotsKeep(r, l);
    case Unreserve(n) => SlotsKeep(r, l);
  }

  lemma {:induction false} RunKeepsInv(r: Pair, steps: seq<Step>)
    requires Inv(r) && Legal(r, steps)
    ensures Inv(Run(r, steps))
    decreases |steps|
  {
    if steps != [] {
      StepKeepsInv(r, steps[0]);
      RunKeepsInv(Apply(r, steps[0]), steps[1..]);
    }
  }

  /** In every run from a reset: the controller reads exactly the submitted commands in
    * order; the two consumers together take exactly the posted completions in order,
    * none twice; and once nothing waits, runs or is unread, every command has been
    * completed and consumed exactly once. */
  lemma RingsAreFifo(r: Pair, steps: seq<Step>)
    requires Fresh(r) && Legal(r, steps)
    ensures var e := Run(r, steps);
      && e.fetched <= e.submitted && e.consumed <= e.posted
      && (forall i, j :: 0 <= i < j < |e.consumed| ==> e.consumed[i].tag != e.consumed[j].tag)
      && e.inflight == e.reserved + (if e.caller.Armed? then 1 else 0) + |e.submitted| - |e.consumed|
      && (e.inflight == 0 ==> forall t :: 0 <= t < |e.submitted| ==> ConsumedOnce(e, t))
  {
    FreshInv(r);
    RunKeepsInv(r, steps);
    var e := Run(r, steps);
    if e.inflight == 0 {
      forall t | 0 <= t < |e.submitted| ensures ConsumedOnce(e, t) {
        AllPosted(e.posted, |e.submitted|);
        assert Tagged(e.posted, t);
      }
    }
  }

  predicate Tagged(log: seq<Cqe>, t: nat) {
    exists i :: 0 <= i < |log| && log[i].tag == t
  }

  predicate ConsumedOnce(r: Pair, t: nat) {
    && Tagged(r.consumed, t)
    && forall i, j :: 0 <= i < |r.consumed| && 0 <= j < |r.consumed| && r.consumed[i].tag == r.consumed[j].tag == t ==> i == j
  }

  /** n completions with n different tags below n: every tag below n. */
  lemma AllPosted(log: seq<Cqe>, n: nat)
    requires |log| == n
    requires forall i :: 0 <= i < n ==> log[i].tag < n
    requires forall i, j :: 0 <= i < j < n ==> log[i].tag != log[j].tag
    ensures forall t :: 0 <= t < n ==> Tagged(log, t)
  {
    TagsCount(log);
    CardinalOfPart(Tags(log), Upto(n));
    forall t | 0 <= t < n ensures Tagged(log, t) {
      if t !in Tags(log) {
        CardinalOfPart(Tags(log), Upto(n) - {t});
      }
    }
  }

  function Tags(log: seq<Cqe>): set<nat> {
    set i | 0 <= i < |log| :: log[i].tag
  }

  lemma CardinalOfPart(a: set<nat>, b: set<nat>)
    requires a <= b
    ensures |a| <= |b|
  {
    assert b == a + (b - a);
  }

  lemma {:induction false} TagsCount(log: seq<Cqe>)
    requires forall i, j :: 0 <= i < j < |log| ==> log[i].tag != log[j].tag
    ensures |Tags(log)| == |log|
  {
    if log != [] {
      var k := |log| - 1;
      TagsCount(log[..k]);
      assert Tags(log) == Tags(log[..k]) + {log[k].tag};
    }
  }
}
