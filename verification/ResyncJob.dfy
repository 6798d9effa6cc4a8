/** The rebuild pump of src/patch_async_worker.c: one job at a time, a consumable
  * cancel brake, and chunks that partition the range. */
module ResyncJob {
  import opened Common

  /** One chunk handed to the media layer. */
  datatype Chunk = Chunk(start: nat, len: nat)

  /** rc_resync_job; issued is its history. */
  datatype Job = Job(start: nat, end: nat, cursor: nat, chunk: nat, chunks: nat, bytes: nat, result: int,
                     issued: seq<Chunk>)

  datatype State = Idle | Pending | Running | Done | Failed | Cancelled

  datatype Answer = Accepted | Invalid | NoMemory | NoDevice | Busy

  const ECANCELED: int := -125

  /** The engine's rebuild fields.  running: the job the thread owns; leaving: it has
    * left the copy loop; finished: the jobs reported, with the state reported. */
  datatype Pump = Pump(alive: bool, cancel: bool, pending: Option<Job>, running: Option<Job>, leaving: bool,
                       state: State, stop: bool, finished: seq<(Job, State)>)

  datatype Step =
    | Request(start: nat, end: nat, chunk: nat, memory: bool)
    | Cancel
    | Claim
    | Leave
    | Issue(rc: int)
    | Finish
    | Shutdown
    | StopThread

  /** min_t(u32, chunk, end - cursor): the difference loses its high half first. */
  function ChunkSize(j: Job): nat
    requires j.cursor <= j.end
  {
    var left := (j.end - j.cursor) % 0x1_0000_0000;
    if j.chunk < left then j.chunk else left
  }

  predicate Bad(start: nat, end: nat, chunk: nat) {
    end <= start || chunk == 0
  }

  function NewJob(start: nat, end: nat, chunk: nat): Job {
    Job(start, end, start, chunk, 0, 0, 0, [])
  }

  predicate IsBusy(p: Pump) {
    p.pending.Some? || p.state == Running || p.cancel
  }

  function AnswerTo(p: Pump, start: nat, end: nat, chunk: nat, memory: bool): Answer {
    if Bad(start, end, chunk) then Invalid
    else if !memory then NoMemory
    else if !p.alive then NoDevice
    else if IsBusy(p) then Busy
    else Accepted
  }

  predicate Enabled(p: Pump, l: Step) {
    match l
    case Request(start, end, chunk, memory) => chunk < 0x1_0000_0000
    case Cancel => true
    case Claim => p.running.None? && p.pending.Some? && !p.stop
    case Leave => p.running.Some? && !p.leaving && (p.running.value.cursor >= p.running.value.end || p.stop || p.cancel)
    case Issue(rc) => p.running.Some? && !p.leaving && p.running.value.cursor < p.running.value.end && !p.stop && !p.cancel
    case Finish => p.running.Some? && p.leaving
    case Shutdown => p.alive
    case StopThread => !p.alive
  }

  /** The state a job's result stands for. */
  function Verdict(result: int): State {
    if result == ECANCELED then Cancelled else if result != 0 then Failed else Done
  }

  /** One turn of the copy loop. */
  function Issued(j: Job, rc: int): Job
    requires j.cursor < j.end
  {
    var n := ChunkSize(j);
    if rc != 0 then j.(result := rc)
    else j.(cursor := j.cursor + n, chunks := j.chunks + 1, bytes := j.bytes + n * 512,
            issued := j.issued + [Chunk(j.cursor, n)])
  }

  function Apply(p: Pump, l: Step): Pump
    requires Enabled(p, l)
  {
    match l
    case Request(start, end, chunk, memory) =>
      if AnswerTo(p, start, end, chunk, memory) == Accepted
      then p.(pending := Some(NewJob(start, end, chunk)), state := Pending)
      else p
    case Cancel =>
      if p.pending.Some? then p.(pending := None, state := Cancelled)
      else if p.state == Running then p.(cancel := true)
      else p
    case Claim => p.(running := p.pending, pending := None, state := Running, leaving := false)
    case Leave =>
      var j := p.running.value;
      p.(leaving := true,
         running := Some(if j.cursor < j.end && !p.stop then j.(result := ECANCELED) else j))
    case Issue(rc) =>
      p.(running := Some(Issued(p.running.value, rc)), leaving := rc != 0)
    case Finish =>
      var j := p.running.value;
      p.(running := None, leaving := false, state := Verdict(j.result), cancel := false,
         finished := p.finished + [(j, Verdict(j.result))])
    case Shutdown => p.(alive := false, cancel := true, pending := None)
    case StopThread => p.(stop := true)
  }

  /** A chunk is what was asked for, or what is left; never nothing below 2^32 sectors. */
  lemma ChunkIsLongest(j: Job)
    requires j.cursor < j.end && j.chunk > 0
    ensures ChunkSize(j) <= j.chunk && j.cursor + ChunkSize(j) <= j.end
    ensures j.end - j.cursor < 0x1_0000_0000 ==>
      ChunkSize(j) > 0 && (ChunkSize(j) == j.chunk || j.cursor + ChunkSize(j) == j.end)
  {
  }

  // ---------- the chunks of a job ----------

  /** cs covers [from, to) in order, without gap or overlap. */
  predicate Covers(cs: seq<Chunk>, from: nat, to: nat)
    decreases |cs|
  {
    if cs == [] then from == to
    else
      var last := cs[|cs| - 1];
      last.start + last.len == to && from <= last.start && Covers(cs[..|cs| - 1], from, last.start)
  }

  function Sectors(cs: seq<Chunk>): nat {
    if cs == [] then 0 else Sectors(cs[..|cs| - 1]) + cs[|cs| - 1].len
  }

  predicate JobOk(j: Job) {
    && 0 < j.chunk < 0x1_0000_0000 && j.start <= j.cursor <= j.end && j.start < j.end
    && Covers(j.issued, j.start, j.cursor)
    && (forall i :: 0 <= i < |j.issued| ==> j.issued[i].len <= j.chunk)
    && j.chunks == |j.issued| && j.bytes == (j.cursor - j.start) * 512
  }

  lemma CoversNext(cs: seq<Chunk>, from: nat, to: nat, n: nat)
    requires Covers(cs, from, to) && from <= to
    ensures Covers(cs + [Chunk(to, n)], from, to + n)
  {
    assert (cs + [Chunk(to, n)])[..|cs|] == cs;
  }

  lemma IssuedOk(j: Job, rc: int)
    requires JobOk(j) && j.cursor < j.end
    ensures JobOk(Issued(j, rc))
  {
    CoversNext(j.issued, j.start, j.cursor, ChunkSize(j));
  }

  lemma {:induction false} CoversSectors(cs: seq<Chunk>, from: nat, to: nat)
    requires Covers(cs, from, to)
    ensures from <= to && Sectors(cs) == to - from
    decreases |cs|
  {
    if cs != [] {
      CoversSectors(cs[..|cs| - 1], from, cs[|cs| - 1].start);
    }
  }

  /** A sector of the range lies in exactly one chunk. */
  lemma {:induction false} CoversOnce(cs: seq<Chunk>, from: nat, to: nat, x: nat) returns (k: nat)
    requires Covers(cs, from, to) && from <= x < to
    ensures k < |cs| && Holds(cs[k], x) && forall i :: 0 <= i < |cs| && Holds(cs[i], x) ==> i == k
    decreases |cs|
  {
    var n := |cs| - 1;
    CoversBelow(cs[..n], from, cs[n].start);
    if x >= cs[n].start {
      k := n;
      assert forall i :: 0 <= i < n ==> cs[..n][i] == cs[i];
    } else {
      k := CoversOnce(cs[..n], from, cs[n].start, x);
    }
  }

  predicate Holds(c: Chunk, x: nat) {
    c.start <= x < c.start + c.len
  }

  lemma {:induction false} CoversBelow(cs: seq<Chunk>, from: nat, to: nat)
    requires Covers(cs, from, to)
    ensures forall i :: 0 <= i < |cs| ==> cs[i].start + cs[i].len <= to
    decreases |cs|
  {
    if cs != [] {
      var n := |cs| - 1;
      CoversBelow(cs[..n], from, cs[n].start);
      assert forall i :: 0 <= i < n ==> cs[..n][i] == cs[i];
    }
  }

  // ---------- the protocol ----------

  /** A job reported as done and not cut short. */
  predicate Whole(j: Job) {
    JobOk(j) && j.cursor == j.end
  }

  ghost predicate Inv(p: Pump) {
    // one job at a time
    && !(p.pending.Some? && p.running.Some?)
    && (p.pending.Some? ==> p.state == Pending && p.alive && JobOk(p.pending.value) && p.pending.value.result == 0)
    && (p.running.Some? <==> p.state == Running)
    && (p.running.Some? ==> JobOk(p.running.value))
    && (p.leaving ==> p.running.Some?)
    && (p.running.Some? && !p.leaving ==> p.running.value.result == 0)
    && (p.running.Some? && p.leaving && p.running.value.result == 0 ==> Whole(p.running.value) || p.stop)
    // the brake is on only while there is something to stop, or for good
    && (p.cancel && p.alive ==> p.running.Some?)
    && (p.stop ==> !p.alive)
    && (!p.stop ==> forall i :: 0 <= i < |p.finished| && p.finished[i].1 == Done ==> Whole(p.finished[i].0))
  }

  ghost predicate Init(p: Pump) {
    p == Pump(true, false, None, None, false, Idle, false, [])
  }

  lemma StepKeeps(p: Pump, l: Step)
    requires Inv(p) && Enabled(p, l)
    ensures Inv(Apply(p, l))
  {
    if l.Issue? { IssuedOk(p.running.value, l.rc); }
  }

  ghost predicate Run(p: Pump, ls: seq<Step>)
    decreases |ls|
  {
    ls == [] || (Enabled(p, ls[0]) && Run(Apply(p, ls[0]), ls[1..]))
  }

  ghost function After(p: Pump, ls: seq<Step>): Pump
    requires Run(p, ls)
    decreases |ls|
  {
    if ls == [] then p else After(Apply(p, ls[0]), ls[1..])
  }

  lemma {:induction false} RunKeeps(p: Pump, ls: seq<Step>)
    requires Inv(p) && Run(p, ls)
    ensures Inv(After(p, ls))
    decreases |ls|
  {
    if ls != [] {
      StepKeeps(p, ls[0]);
      RunKeeps(Apply(p, ls[0]), ls[1..]);
    }
  }

  /** At most one job is ever pending or running, and no cancel outlives its job: an
    * idle pump accepts every sensible request until shutdown begins. */
  lemma OneJobAndNoStuckBrake(p: Pump, ls: seq<Step>, start: nat, end: nat, chunk: nat)
    requires Init(p) && Run(p, ls) && !Bad(start, end, chunk)
    ensures var q := After(p, ls);
      && !(q.pending.Some? && q.running.Some?)
      && (q.alive && q.cancel ==> q.running.Some?)
      && (q.alive ==> (AnswerTo(q, start, end, chunk, true) == Accepted <==> q.pending.None? && q.running.None?))
  {
    RunKeeps(p, ls);
  }

  /** A job that is told to stop in the middle of its range issues no further chunk, and is
    * reported as cancelled; the brake is off again. */
  lemma CancelIsReported(p: Pump, rc: int)
    requires Inv(p) && p.running.Some? && p.running.value.cursor < p.running.value.end
    requires !p.leaving && p.cancel && !p.stop
    ensures !Enabled(p, Issue(rc)) && Enabled(p, Leave) && Enabled(Apply(p, Leave), Finish)
    ensures var q := Apply(Apply(p, Leave), Finish);
      && q.state == Cancelled && !q.cancel && q.running.None? && |q.finished| == |p.finished| + 1
      && q.finished[|p.finished|].1 == Cancelled && q.finished[|p.finished|].0.issued == p.running.value.issued
  {
  }

  /** A job reported DONE before the thread is told to stop copied its range: the
    * chunks partition [start, end) in order, and bytes is 512 times its sectors. */
  lemma DoneMeansPartitioned(p: Pump, ls: seq<Step>, i: nat)
    requires Init(p) && Run(p, ls)
    ensures var q := After(p, ls);
      !q.stop && i < |q.finished| && q.finished[i].1 == Done ==>
        var j := q.finished[i].0;
        && Covers(j.issued, j.start, j.end) && j.bytes == 512 * (j.end - j.start)
        && Sectors(j.issued) == j.end - j.start && j.chunks == |j.issued|
        && forall k :: 0 <= k < |j.issued| ==> j.issued[k].len <= j.chunk
  {
    RunKeeps(p, ls);
    var q := After(p, ls);
    if !q.stop && i < |q.finished| && q.finished[i].1 == Done {
      assert Whole(q.finished[i].0);
      CoversSectors(q.finished[i].0.issued, q.finished[i].0.start, q.finished[i].0.end);
    }
  }

  /** A thread told to stop leaves the loop with result 0: the job is reported DONE
    * although nothing of its range was copied. */
  const STOPPED_EARLY := [Request(0, 8, 4, true), Claim, Shutdown, StopThread, Leave, Finish]

  lemma StopReportsDone(p: Pump)
    requires Init(p)
    ensures Run(p, STOPPED_EARLY)
    ensures var q := After(p, STOPPED_EARLY); q.finished == [(NewJob(0, 8, 4), Done)]
  {
    var ls := STOPPED_EARLY;
    var p1 := Apply(p, ls[0]);
    var p2 := Apply(p1, Claim);
    var p3 := Apply(p2, Shutdown);
    var p4 := Apply(p3, StopThread);
    var p5 := Apply(p4, Leave);
    var p6 := Apply(p5, Finish);
    assert ls[1..][1..][1..][1..][1..] == [Finish];
    assert p6.finished == [(NewJob(0, 8, 4), Done)];
  }

  // ---------- a range of 2^32 sectors or more ----------

  /** n turns of the copy loop, nothing interfering. */
  function Turns(j: Job, n: nat): Job
    requires j.cursor <= j.end
    ensures Turns(j, n).cursor <= j.end && Turns(j, n).end == j.end
    decreases n
  {
    if n == 0 || j.cursor == j.end then j else Turns(Issued(j, 0), n - 1)
  }

  /** A chunk never takes the remainder below a multiple of 2^32. */
  lemma ChunkStaysAbove(j: Job)
    requires j.cursor < j.end
    ensures var k := Issued(j, 0);
      k.cursor <= k.end && (k.end - k.cursor) / 0x1_0000_0000 == (j.end - j.cursor) / 0x1_0000_0000
  {
  }

  lemma {:induction false} TurnsStayAbove(j: Job, n: nat)
    requires j.cursor <= j.end
    ensures var k := Turns(j, n); (k.end - k.cursor) / 0x1_0000_0000 == (j.end - j.cursor) / 0x1_0000_0000
    decreases n
  {
    if n > 0 && j.cursor < j.end {
      ChunkStaysAbove(j);
      TurnsStayAbove(Issued(j, 0), n - 1);
    }
  }

  lemma {:induction false} TurnsReachEnd(j: Job, n: nat)
    requires j.chunk > 0 && j.cursor <= j.end && n == j.end - j.cursor < 0x1_0000_0000
    ensures Turns(j, n).cursor == j.end
    decreases n
  {
    if n > 0 {
      var k := Issued(j, 0);
      TurnsReachEnd(k, k.end - k.cursor);
      MoreTurns(k, k.end - k.cursor, n - 1);
    }
  }

  lemma {:induction false} MoreTurns(j: Job, m: nat, n: nat)
    requires j.cursor <= j.end && m <= n && Turns(j, m).cursor == j.end
    ensures Turns(j, n).cursor == j.end
    decreases n
  {
    if n > 0 && j.cursor < j.end && m > 0 {
      MoreTurns(Issued(j, 0), m - 1, n - 1);
    }
  }

  ghost predicate CanFinish(j: Job)
    requires j.cursor <= j.end
  {
    exists n :: n >= 0 && Turns(j, n).cursor == j.end
  }

  /** The copy loop can reach the end of a range if and only if the range is shorter
    * than 2^32 sectors; a longer one ends in chunks of no sectors, for ever. */
  lemma FinishesIff(start: nat, end: nat, chunk: nat)
    requires start < end && chunk > 0
    ensures CanFinish(NewJob(start, end, chunk)) <==> end - start < 0x1_0000_0000
  {
    var j := NewJob(start, end, chunk);
    if end - start < 0x1_0000_0000 {
      TurnsReachEnd(j, end - start);
    } else if CanFinish(j) {
      var n :| n >= 0 && Turns(j, n).cursor == j.end;
      TurnsStayAbove(j, n);
    }
  }

  // ---------- the pump as the driver keeps it ----------

  class ResyncPump {
    var alive: bool
    var cancel: bool
    var pending: Option<Job>
    var running: Option<Job>
    var leaving: bool
    var state: State
    var stop: bool
    ghost var finished: seq<(Job, State)>

    ghost function Model(): Pump
      reads this
    {
      Pump(alive, cancel, pending, running, leaving, state, stop, finished)
    }

    constructor ()
      ensures Init(Model())
    {
      alive, cancel, pending, running, leaving := true, false, None, None, false;
      state, stop, finished := Idle, false, [];
    }

    /** rc_amd_resync_request. */
    method ResyncRequest(start: nat, end: nat, chunk: nat, memory: bool) returns (answer: Answer)
      requires chunk < 0x1_0000_0000
      modifies this`pending, this`state
      ensures answer == AnswerTo(old(Model()), start, end, chunk, memory)
      ensures answer == Invalid <==> end <= start || chunk == 0
      ensures answer == NoMemory <==> start < end && chunk > 0 && !memory
      ensures answer == NoDevice <==> start < end && chunk > 0 && memory && !alive
      ensures answer == Accepted <==>
        start < end && chunk > 0 && memory && alive && old(pending).None? && old(state) != Running && !cancel
      ensures answer == Accepted ==> pending == Some(Job(start, end, start, chunk, 0, 0, 0, [])) && state == Pending
      ensures answer != Accepted ==> pending == old(pending) && state == old(state)
      ensures Model() == Apply(old(Model()), Request(start, end, chunk, memory))
    {
      if end <= start || chunk == 0 { return Invalid; }
      if !memory { return NoMemory; }
      var busy := pending.Some? || state == Running || cancel;
      if alive && !busy {
        pending, state := Some(NewJob(start, end, chunk)), Pending;
      }
      answer := if !alive then NoDevice else if busy then Busy else Accepted;
    }

    /** rc_amd_resync_cancel. */
    method ResyncCancel()
      modifies this`pending, this`state, this`cancel
      ensures Model() == Apply(old(Model()), Cancel)
      ensures pending == None && (cancel <==> old(cancel) || (old(pending).None? && old(state) == Running))
      ensures state == if old(pending).Some? then Cancelled else old(state)
    {
      if pending.Some? {
        pending, state := None, Cancelled;
      } else if state == Running {
        cancel := true;
      }
    }

    /** rc_amd_resync_claim. */
    method ResyncClaim() returns (claimed: bool)
      requires running.None? && !stop
      modifies this`pending, this`running, this`leaving, this`state
      ensures claimed == old(pending).Some?
      ensures claimed ==> Model() == Apply(old(Model()), Claim)
      ensures claimed ==> running == old(pending) && pending == None && state == Running && !leaving
      ensures !claimed ==> Model() == old(Model())
    {
      claimed := pending.Some?;
      if claimed {
        running, pending := pending, None;
        state, leaving := Running, false;
      }
    }

    /** rc_amd_resync_finish. */
    method ResyncFinish()
      requires running.Some? && leaving
      modifies this
      ensures Model() == Apply(old(Model()), Finish)
      ensures var j := old(running).value;
        && (state == Done <==> j.result == 0) && (state == Cancelled <==> j.result == -125)
        && (state == Failed <==> j.result != 0 && j.result != -125)
        && running == None && !cancel && !leaving && finished == old(finished) + [(j, state)]
    {
      var j := running.value;
      if j.result == ECANCELED {
        state := Cancelled;
      } else if j.result != 0 {
        state := Failed;
      } else {
        state := Done;
      }
      cancel, running, leaving := false, None, false;
      finished := finished + [(j, state)];
    }

    /** The first critical section of rc_amd_exit_async_subsystem. */
    method BeginShutdown()
      requires alive
      modifies this`alive, this`cancel, this`pending
      ensures Model() == Apply(old(Model()), Shutdown)
      ensures !alive && cancel && pending == None
    {
      alive, cancel, pending := false, true, None;
    }
  }

  lemma {:induction false} OneMoreTurn(j: Job, n: nat)
    requires j.cursor <= j.end && Turns(j, n).cursor < j.end
    ensures Turns(j, n + 1) == Issued(Turns(j, n), 0)
    decreases n
  {
    if n > 0 { OneMoreTurn(Issued(j, 0), n - 1); }
  }

  /** The end of a turn: the chunk has been copied. */
  method IssueChunk(j: Job) returns (after: Job)
    requires JobOk(j) && j.cursor < j.end
    ensures JobOk(after) && after == Issued(j, 0) && after.cursor == j.cursor + ChunkSize(j)
    ensures after.issued == j.issued + [Chunk(j.cursor, ChunkSize(j))] && after.bytes == j.bytes + ChunkSize(j) * 512
    ensures after.chunks == j.chunks + 1 && after.result == j.result && after.start == j.start && after.end == j.end
  {
    var n := ChunkSize(j);
    IssuedOk(j, 0);
    after := j.(cursor := j.cursor + n, chunks := j.chunks + 1, bytes := j.bytes + n * 512,
                issued := j.issued + [Chunk(j.cursor, n)]);
  }

  /** Turns 0 to k - 1 of the loop issued a chunk each, and turn k ended it: at the end
    * of the range, on a thread stop, on the brake, or on an error of the media layer,
    * looked at in this order. */
  ghost predicate EndedAt(job: Job, done: Job, k: nat, stop: nat -> bool, brake: nat -> bool, copy: nat -> int) {
    && job.cursor <= job.end
    && (forall j: nat :: j < k ==> !stop(j) && !brake(j) && copy(j) == 0)
    && done == Turns(job, k).(result := done.result)
    && done.result == (if done.cursor == done.end || stop(k) then 0 else if brake(k) then ECANCELED else copy(k))
    && (done.cursor < done.end ==> stop(k) || done.result != 0)
  }

  /** rc_amd_resync_run.  stop, brake and copy say what the thread sees, and what the
    * media layer answers, on its k-th turn.  A job of 2^32 sectors or more need not end
    * on its own (FinishesIff): turn limit is then one on which something ends it. */
  method ResyncRun(job: Job, stop: nat -> bool, brake: nat -> bool, copy: nat -> int, ghost limit: nat)
    returns (done: Job)
    requires JobOk(job) && job.result == 0
    requires job.end - job.cursor < 0x1_0000_0000 || stop(limit) || brake(limit) || copy(limit) != 0
    ensures JobOk(done) && done.start == job.start && done.end == job.end
    ensures exists k :: EndedAt(job, done, k, stop, brake, copy)
  {
    var k: nat := 0;
    done := job;
    ghost var short := job.end - job.cursor < 0x1_0000_0000;
    while done.cursor < done.end
      invariant JobOk(done) && done.result == 0 && done.start == job.start && done.end == job.end
      invariant done.cursor >= job.cursor && done == Turns(job, k)
      invariant forall j: nat :: j < k ==> !stop(j) && !brake(j) && copy(j) == 0
      invariant short || k <= limit
      decreases if short then done.end - done.cursor else limit - k
    {
      if stop(k) {
        assert EndedAt(job, done, k, stop, brake, copy);
        return;
      }
      if brake(k) {
        done := done.(result := ECANCELED);
        assert EndedAt(job, done, k, stop, brake, copy);
        return;
      }
      var rc := copy(k);
      if rc != 0 {
        done := done.(result := rc);
        assert EndedAt(job, done, k, stop, brake, copy);
        return;
      }
      OneMoreTurn(job, k);
      done := IssueChunk(done);
      k := k + 1;
    }
    assert EndedAt(job, done, k, stop, brake, copy);
  }
}
