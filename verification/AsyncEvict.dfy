/** The bounded graveyard of src/patch_async_worker.c against a claim that is late:
  * a run in which the callers keep every hypothesis up to the 257th reap, which
  * evicts a tombstone while the last report of that context is still on its way to
  * rc_amd_context_claim. */
module AsyncEvict {
  import opened AsyncContext
  import opened AsyncEngine

  // ---------- runs that keep the hypotheses ----------

  ghost predicate Leads(e: Engine, ls: seq<Step>, f: Engine) {
    Run(e, ls, true) && After(e, ls, true) == f
  }

  lemma {:induction false} Then(e: Engine, ls: seq<Step>, f: Engine, l: Step, g: Engine)
    requires Leads(e, ls, f) && Enabled(f, l) && Careful(f, l) && Apply(f, l) == g
    ensures Leads(e, ls + [l], g)
    decreases |ls|
  {
    var all := ls + [l];
    if ls == [] {
      assert all[1..] == [];
    } else {
      Then(Apply(e, ls[0]), ls[1..], f, l, g);
      assert all[0] == ls[0] && all[1..] == ls[1..] + [l];
    }
  }

  /** A step of the registered context k. */
  lemma Turn(ls: seq<Step>, e: Engine, k: nat, c: Ctx, l: Step, d: Ctx)
    requires Leads(IDLE, ls, Put(e, k, c)) && c.home == Live && !e.closed && !e.corrupt
    requires OneContext(l) && l.id == k && Enabled(Put(e, k, c), l) && Careful(Put(e, k, c), l) && Next(c, l) == d
    ensures Leads(IDLE, ls + [l], Put(e, k, d))
  {
    assert Put(Put(e, k, c), k, d) == Put(e, k, d) by {
      assert e.ctxs[k := c][k := d] == e.ctxs[k := d];
    }
    Then(IDLE, ls, Put(e, k, c), l, Put(e, k, d));
  }

  // ---------- the contexts of the run ----------

  /** A failure claimed first; the claim of the last report is still to come. */
  function Overtaken(): Ctx {
    Counted().(completing := true, status := IoErr, aborted := true, queuers := 1)
  }

  function Aborted(): Ctx {
    Overtaken().(queuers := 0, work := Ended, retired := true, ends := [IoErr], reapers := 1)
  }

  /** Context 0 in the graveyard: ended, and its last claimer has not run. */
  function Haunted(): Ctx {
    Aborted().(reapers := 0, home := Tomb)
  }

  function Served(): Ctx {
    Counted().(claimers := 0, completing := true, retired := true, work := Ended, ends := [Ok], reapers := 1)
  }

  /** Any other context in the graveyard: nothing is on its way to it. */
  function Rested(): Ctx {
    Served().(reapers := 0, home := Tomb)
  }

  function InGrave(k: nat): Ctx {
    if k == 0 then Haunted() else Rested()
  }

  // ---------- one context from its dispatch to its reap ----------

  /** Up to the last report's countdown. */
  function Countdown(k: nat): seq<Step> { [Dispatch(k, 7, 1, true), Complete(k, Ok)] }

  /** What ends the parent: the last report, or for context 0 an abort beside it. */
  function Finish(k: nat): seq<Step> {
    [if k == 0 then AbortSet(0, IoErr) else LastClaim(k), QueueWork(k), WorkRetire(k), WorkEnd(k)]
  }

  /** n contexts have come and gone, in the order of their numbers. */
  function Crowd(n: nat): Engine {
    Engine(map k: nat | k < n :: InGrave(k), seq(n, i => i), n, 0, 0, true, false, false)
  }

  function Ready(k: nat): Ctx { if k == 0 then Aborted() else Served() }

  lemma CountsDown(ls: seq<Step>, k: nat)
    requires Leads(IDLE, ls, Crowd(k))
    ensures Leads(IDLE, ls + Countdown(k), Put(Crowd(k).(inflight := 1), k, Counted()))
  {
    var e := Crowd(k).(inflight := 1);
    Then(IDLE, ls, Crowd(k), Dispatch(k, 7, 1, true), Put(e, k, NewCtx(7, 1, true)));
    assert Report(NewCtx(7, 1, true), Ok) == Counted() by { assert [] + [Ok] == [Ok]; }
    Turn(ls + [Dispatch(k, 7, 1, true)], e, k, NewCtx(7, 1, true), Complete(k, Ok), Counted());
    assert ls + Countdown(k) == ls + [Dispatch(k, 7, 1, true)] + [Complete(k, Ok)];
  }

  /** The work of a context whose endio has been claimed. */
  lemma Works(ls: seq<Step>, e: Engine, k: nat, c: Ctx, d: Ctx)
    requires Leads(IDLE, ls, Put(e, k, c)) && c.home == Live && !e.closed && !e.corrupt
    requires c.queuers == 1 && c.work.NoWork? && !c.resource && c.remaining == 0 && c.ends == [] && c.reapers == 0
    requires d == c.(queuers := 0, work := Ended, retired := true, ends := [c.status], reapers := 1)
    ensures Leads(IDLE, ls + [QueueWork(k)] + [WorkRetire(k)] + [WorkEnd(k)], Put(e, k, d))
  {
    var q := Enqueue(c);
    Turn(ls, e, k, c, QueueWork(k), q);
    var r := Retire(q);
    Turn(ls + [QueueWork(k)], e, k, q, WorkRetire(k), r);
    assert End(r) == d by { assert [] + [c.status] == [c.status]; }
    Turn(ls + [QueueWork(k)] + [WorkRetire(k)], e, k, r, WorkEnd(k), d);
  }

  lemma Finishes(ls: seq<Step>, k: nat)
    requires Leads(IDLE, ls, Put(Crowd(k).(inflight := 1), k, Counted()))
    ensures Leads(IDLE, ls + Finish(k), Put(Crowd(k).(inflight := 1), k, Ready(k)))
  {
    var e, l := Crowd(k).(inflight := 1), Finish(k)[0];
    var c := if k == 0 then Overtaken() else ClaimLast(Counted());
    Turn(ls, e, k, Counted(), l, c);
    Works(ls + [l], e, k, c, Ready(k));
    assert ls + Finish(k) == ls + [l] + [QueueWork(k)] + [WorkRetire(k)] + [WorkEnd(k)];
  }

  /** While the graveyard has room, the reap buries the context and evicts nobody. */
  lemma Buries(k: nat)
    requires k < GRAVEYARD_MAX
    ensures var e := Put(Crowd(k).(inflight := 1), k, Ready(k));
      Enabled(e, Reap(k)) && Careful(e, Reap(k)) && Apply(e, Reap(k)) == Crowd(k + 1).(inflight := 1, decs := 1)
  {
    var e := Put(Crowd(k).(inflight := 1), k, Ready(k));
    var f, g := Apply(e, Reap(k)), Crowd(k + 1);
    assert f.ctxs == g.ctxs;
    assert f.graveyard == g.graveyard;
  }

  /** The steps of the first n contexts. */
  function Past(n: nat): seq<Step> {
    if n == 0 then [] else Past(n - 1) + Countdown(n - 1) + Finish(n - 1) + [Reap(n - 1)] + [Dec]
  }

  lemma {:induction false} Fills(n: nat)
    requires n <= GRAVEYARD_MAX
    ensures Leads(IDLE, Past(n), Crowd(n))
  {
    if n == 0 {
      assert Crowd(0).ctxs == map[] && Crowd(0).graveyard == [];
    } else {
      var k := n - 1;
      Fills(k);
      CountsDown(Past(k), k);
      var ls := Past(k) + Countdown(k);
      Finishes(ls, k);
      Buries(k);
      var e := Put(Crowd(k).(inflight := 1), k, Ready(k));
      var f := Crowd(n).(inflight := 1, decs := 1);
      Then(IDLE, ls + Finish(k), e, Reap(k), f);
      Then(IDLE, ls + Finish(k) + [Reap(k)], f, Dec, Crowd(n));
    }
  }

  // ---------- the 257th reap ----------

  /** 256 contexts lie in the graveyard and one more is ready to be reaped. */
  function Eve(): Engine {
    Put(Crowd(256).(inflight := 1), 256, Served())
  }

  function Late(): seq<Step> { Past(256) + Countdown(256) + Finish(256) }

  /** The reap evicts context 0, and its last report then claims in freed memory. */
  lemma Evicts()
    ensures Enabled(Eve(), Reap(256)) && !Careful(Eve(), Reap(256))
    ensures var f := Apply(Eve(), Reap(256));
      && 0 in f.ctxs && f.ctxs[0] == Haunted().(home := Freed) && !f.corrupt
      && Enabled(f, LastClaim(0)) && Apply(f, LastClaim(0)).corrupt
  {
    var e := Eve();
    assert e.graveyard[0] == 0 && e.ctxs[0] == Haunted() && !Settled(Haunted());
    var b := Put(e, 256, Rested()).(graveyard := e.graveyard + [256], graves := 257, decs := 1);
    assert b.graveyard[0] == 0;
    assert Apply(e, Reap(256)) == Evict(b);
  }

  /** The hypothesis on the evicted tombstone is needed: every step of the run is
    * careful, the next reap is the first that is not, and the claim after it touches
    * freed memory. */
  lemma LateClaimTouchesFreed()
    ensures Run(IDLE, Late(), true) && Enabled(After(IDLE, Late(), true), Reap(256))
    ensures !Careful(After(IDLE, Late(), true), Reap(256))
    ensures var f := Apply(After(IDLE, Late(), true), Reap(256));
      Enabled(f, LastClaim(0)) && Apply(f, LastClaim(0)).corrupt
  {
    Fills(256);
    CountsDown(Past(256), 256);
    Finishes(Past(256) + Countdown(256), 256);
    Evicts();
  }
}
