/** rc_volume_pdu as the interrupt handler, the drain and the final unmap update it;
  * each method, run undisturbed, is a run of the steps of Completion. */
module CompletionPdu {
  import opened FinishStatus
  import opened Completion

  ghost predicate Reaches(a: Req, b: Req) {
    exists steps :: Legal(a, steps) && Run(a, steps) == b
  }

  lemma ReachesSelf(a: Req)
    ensures Reaches(a, a)
  {
    assert Legal(a, []) && Run(a, []) == a;
  }

  lemma {:induction false} RunThen(a: Req, steps: seq<Step>, l: Step)
    requires Legal(a, steps) && Enabled(Run(a, steps), l)
    ensures Legal(a, steps + [l]) && Run(a, steps + [l]) == Apply(Run(a, steps), l)
    decreases |steps|
  {
    if steps == [] {
      assert steps + [l] == [l] && [l][1..] == [];
    } else {
      RunThen(Apply(a, steps[0]), steps[1..], l);
      assert (steps + [l])[0] == steps[0] && (steps + [l])[1..] == steps[1..] + [l];
    }
  }

  lemma ReachesThen(a: Req, b: Req, l: Step, c: Req)
    requires Reaches(a, b) && Enabled(b, l) && c == Apply(b, l)
    ensures Reaches(a, c)
  {
    var steps :| Legal(a, steps) && Run(a, steps) == b;
    RunThen(a, steps, l);
  }

  lemma {:induction false} RunsOn(a: Req, first: seq<Step>, more: seq<Step>)
    requires Legal(a, first) && Legal(Run(a, first), more)
    ensures Legal(a, first + more) && Run(a, first + more) == Run(Run(a, first), more)
    decreases |first|
  {
    if first == [] {
      assert first + more == more;
    } else {
      RunsOn(Apply(a, first[0]), first[1..], more);
      assert (first + more)[0] == first[0] && (first + more)[1..] == first[1..] + more;
    }
  }

  lemma ReachesTrans(a: Req, b: Req, c: Req)
    requires Reaches(a, b) && Reaches(b, c)
    ensures Reaches(a, c)
  {
    var first :| Legal(a, first) && Run(a, first) == b;
    var more :| Legal(b, more) && Run(b, more) == c;
    RunsOn(a, first, more);
  }

  lemma ReachesKeepsInv(a: Req, b: Req)
    requires Inv(a) && Reaches(a, b)
    ensures Inv(b)
  {
    var steps :| Legal(a, steps) && Run(a, steps) == b;
    RunKeepsInv(a, steps);
  }

  /** The members of s a scan up to i has passed. */
  function Below(s: set<nat>, i: nat): set<nat> {
    set m | m in s && m < i
  }

  /** The scan meets i. */
  lemma BelowNext(s: set<nat>, i: nat)
    ensures Below(s, i + 1) == if i in s then Below(s, i) + {i} else Below(s, i)
    ensures i !in Below(s, i)
  {
  }

  /** A drain that found acked0, errs0 and pending0 has scanned the members did; last:
    * it counted down to zero. */
  ghost predicate Tally(
    acked0: set<nat>, errs0: set<nat>, pending0: int, acked: set<nat>, errs: set<nat>, pending: int,
    did: set<nat>, last: bool)
  {
    && acked == acked0 + did
    && errs == errs0 + (did - acked0)
    && pending == pending0 - |did - acked0|
    && (last <==> did - acked0 != {} && pending == 0)
  }

  lemma TallyOne(
    acked0: set<nat>, errs0: set<nat>, pending0: int, acked: set<nat>, errs: set<nat>, pending: int,
    did: set<nat>, last: bool, m: nat)
    requires Tally(acked0, errs0, pending0, acked, errs, pending, did, last) && m !in did
    requires pending == 0 ==> m in acked
    ensures
      var own := m !in acked;
      Tally(acked0, errs0, pending0, acked + {m}, if own then errs + {m} else errs, if own then pending - 1 else pending,
            did + {m}, last || (own && pending == 1))
  {
    if m in acked0 {
      assert did + {m} - acked0 == did - acked0;
    } else {
      assert did + {m} - acked0 == (did - acked0) + {m};
    }
  }

  /** Zero means there is nobody left to count. */
  lemma ZeroIsAll(b: Req, m: nat)
    requires Inv(b) && m in b.mask
    ensures b.pending == 0 ==> m in b.acked
  {
    DownIsDone(b);
  }

  /** From a, a drain has come to b. */
  ghost predicate Scan(a: Req, b: Req, did: set<nat>, last: bool) {
    && Reaches(a, b)
    && Tally(a.acked, a.errs, a.pending, b.acked, b.errs, b.pending, did, last)
    && (last ==> b.claimers > 0)
  }

  lemma ScanNone(a: Req)
    ensures Scan(a, a, {}, false)
  {
    ReachesSelf(a);
  }

  class Pdu {
    const level: Level
    const op: Op
    const mask: set<nat>
    var acked: set<nat>
    var errs: set<nat>
    var sc: bool
    var pending: int
    var completed: bool
    var counted: bool
    var gen: nat
    /** Everything the structure does not hold. */
    ghost var others: Req

    ghost function Model(): Req
      reads this
    {
      others.(level := level, op := op, mask := mask, acked := acked, errs := errs, sc := sc,
              pending := pending, completed := completed, counted := counted, gen := gen)
    }

    /** As the dispatch paths leave it. */
    constructor (level: Level, op: Op, mask: set<nat>, counted: bool, gen: nat)
      requires mask != {}
      ensures Started(Model())
      ensures this.level == level && this.op == op && this.mask == mask && this.counted == counted && this.gen == gen
    {
      this.level, this.op, this.mask, this.counted, this.gen := level, op, mask, counted, gen;
      acked, errs, sc, pending, completed := {}, {}, false, |mask|, false;
      others := Req(level, op, mask, {}, {}, false, 0, false, counted, gen, map[], {}, {}, {}, {}, 0, [], [], {}, [], {}, []);
    }

    /** atomic_fetch_or on acked by the drain: true if this caller owns the decrement. */
    method FetchOrDrain(m: nat) returns (own: bool)
      requires m in mask
      modifies this`acked, this`others
      ensures Model() == Apply(old(Model()), DrainAck(m))
      ensures own <==> m !in old(acked)
    {
      own := m !in acked;
      if own {
        acked := acked + {m};
        others := others.(owing := others.owing + {m}, failing := others.failing + {m});
      }
    }

    /** The drain records a dead member as failed. */
    method RecordDead(m: nat)
      requires m in others.failing
      modifies this`errs, this`sc, this`others
      ensures Model() == Apply(old(Model()), DrainNote(m))
    {
      errs := errs + {m};
      sc := true;
      others := others.(failing := others.failing - {m});
    }

    /** The handler records an error status. */
    method RecordError(m: nat)
      requires Enabled(Model(), CqeNote(m))
      modifies this`errs, this`sc, this`others
      ensures Model() == Apply(old(Model()), CqeNote(m))
    {
      sc := true;
      errs := errs + {m};
      others := others.(noted := others.noted + {m});
    }

    /** atomic_fetch_or on acked by the interrupt handler. */
    method FetchOrCqe(m: nat) returns (consume: bool)
      requires Enabled(Model(), CqeAck(m))
      modifies this`acked, this`others
      ensures Model() == Apply(old(Model()), CqeAck(m))
      ensures consume <==> m !in old(acked)
    {
      consume := m !in acked;
      others := others.(taken := others.taken + {m});
      if consume {
        acked := acked + {m};
        others := others.(owing := others.owing + {m},
                          success := if others.cqes[m] then others.success + {m} else others.success);
      }
    }

    /** atomic_dec_and_test. */
    method DecAndTest(m: nat) returns (last: bool)
      requires Enabled(Model(), Dec(m))
      modifies this`pending, this`others
      ensures Model() == Apply(old(Model()), Dec(m))
      ensures last <==> pending == 0
    {
      pending := pending - 1;
      last := pending == 0;
      others := others.(owing := others.owing - {m}, decs := others.decs + [m],
                        claimers := if last then others.claimers + 1 else others.claimers);
    }

    /** rc_volume_claim_completion, by whoever counted down last. */
    method ClaimCompletion() returns (won: bool)
      requires others.claimers > 0
      modifies this`completed, this`others
      ensures Model() == Apply(old(Model()), TryClaim)
      ensures won <==> !old(completed)
      ensures completed
    {
      won := !completed;
      completed := true;
      others := others.(claimers := others.claimers - 1);
      if won { others := others.(winners := others.winners + [ByCount]); }
    }

    /** rc_volume_unmap_request_sg followed by rc_volume_finish_status, by the winner of
      * the count; release: the generation counter to bring down. */
    method UnmapAndFinish(ghost i: nat) returns (release: bool, st: Status, failed: set<nat>)
      requires i < |others.winners| && others.winners[i] == ByCount
      modifies this`counted, this`others
      ensures Model() == Apply(old(Model()), Settle(i))
      ensures release == old(counted) && !counted
      ensures others.enders == old(others).enders + [Outcome(ByCount, st)]
      ensures others.marked == old(others).marked + failed
    {
      release := counted;
      counted := false;
      st, failed := Finish(level, op, mask, errs, sc);
      others := others.(winners := Without(others.winners, i), enders := others.enders + [Outcome(ByCount, st)],
                        marked := others.marked + failed);
    }

    /** One involved dead member of rc_volume_drain_iter. */
    method DrainOne(m: nat) returns (last: bool)
      requires m in mask
      modifies this`acked, this`errs, this`sc, this`pending, this`others
      ensures Reaches(old(Model()), Model())
      ensures acked == old(acked) + {m}
      ensures errs == (if m in old(acked) then old(errs) else old(errs) + {m})
      ensures pending == (if m in old(acked) then old(pending) else old(pending) - 1)
      ensures last <==> m !in old(acked) && pending == 0
      ensures completed == old(completed)
      ensures others.claimers == old(others).claimers + (if last then 1 else 0)
    {
      ghost var a := Model();
      ReachesSelf(a);
      last := false;
      var own := FetchOrDrain(m);
      ghost var b := Model();
      ReachesThen(a, a, DrainAck(m), b);
      if own {
        RecordDead(m);
        ghost var c := Model();
        ReachesThen(a, b, DrainNote(m), c);
        last := DecAndTest(m);
        ReachesThen(a, c, Dec(m), Model());
      }
    }

    /** The handler's claim of a member's completion, and its decrement. */
    method CountCqe(m: nat) returns (last: bool)
      requires others.failing <= acked && Enabled(Model(), CqeAck(m))
      modifies this`acked, this`pending, this`others
      ensures Reaches(old(Model()), Model())
      ensures acked == old(acked) + {m}
      ensures pending == (if m in old(acked) then old(pending) else old(pending) - 1)
      ensures last <==> m !in old(acked) && pending == 0
      ensures last ==> others.claimers > 0
    {
      ghost var a := Model();
      ReachesSelf(a);
      last := false;
      var consume := FetchOrCqe(m);
      ghost var c := Model();
      ReachesThen(a, a, CqeAck(m), c);
      if consume {
        last := DecAndTest(m);
        ReachesThen(a, c, Dec(m), Model());
      }
    }

    /** What rc_nvme_io_queue_irq does with one completion of this request. */
    method ConsumeCqe(m: nat, good: bool) returns (won: bool)
      requires Inv(Model()) && m in others.cqes && others.cqes[m] == good && m !in others.taken
      modifies this`acked, this`errs, this`sc, this`pending, this`completed, this`others
      ensures Reaches(old(Model()), Model())
      ensures acked == old(acked) + {m}
      ensures errs == (if good then old(errs) else old(errs) + {m})
      ensures pending == (if m in old(acked) then old(pending) else old(pending) - 1)
      ensures won <==> m !in old(acked) && pending == 0 && !old(completed)
    {
      ghost var a := Model();
      ReachesSelf(a);
      if !good {
        RecordError(m);
        ReachesThen(a, a, CqeNote(m), Model());
      }
      ghost var b := Model();
      ReachesKeepsInv(a, b);
      var last := CountCqe(m);
      ghost var c := Model();
      ReachesTrans(a, b, c);
      won := false;
      if last {
        won := ClaimCompletion();
        ReachesThen(a, c, TryClaim, Model());
      }
    }

    /** One turn of the drain's loop. */
    method DrainNext(m: nat, last: bool, ghost a: Req, ghost did: set<nat>) returns (last': bool)
      requires Inv(a) && Scan(a, Model(), did, last) && m in mask && m !in did
      modifies this`acked, this`errs, this`sc, this`pending, this`others
      ensures Scan(a, Model(), did + {m}, last')
    {
      ghost var b := Model();
      ReachesKeepsInv(a, b);
      ZeroIsAll(b, m);
      TallyOne(a.acked, a.errs, a.pending, acked, errs, pending, did, last, m);
      var zero := DrainOne(m);
      ReachesTrans(a, b, Model());
      last' := last || zero;
    }

    /** The loop of rc_volume_drain_iter. */
    method ScanDead(involved: set<nat>, members: nat) returns (last: bool)
      requires Inv(Model()) && involved <= mask && forall m :: m in involved ==> m < members
      modifies this`acked, this`errs, this`sc, this`pending, this`others
      ensures Scan(old(Model()), Model(), involved, last)
    {
      ghost var a, b, did := Model(), Model(), {};
      ScanNone(a);
      last := false;
      var i := 0;
      while i < members
        invariant i <= members && did == Below(involved, i)
        invariant b == Model() && Scan(a, b, did, last)
      {
        BelowNext(involved, i);
        if i in involved {
          last := DrainNext(i, last, a, did);
          b, did := Model(), did + {i};
        }
        i := i + 1;
      }
      assert did == involved;
    }

    /** rc_volume_drain_iter for this request. */
    method DrainIter(dead: set<nat>, members: nat) returns (won: bool)
      requires Inv(Model()) && forall m :: m in mask ==> m < members
      modifies this`acked, this`errs, this`sc, this`pending, this`completed, this`others
      ensures Reaches(old(Model()), Model())
      ensures acked == old(acked) + mask * dead
      ensures errs == old(errs) + (mask * dead - old(acked))
      ensures pending == old(pending) - |mask * dead - old(acked)|
      ensures won <==> mask * dead - old(acked) != {} && pending == 0 && !old(completed)
    {
      var last := ScanDead(mask * dead, members);
      won := false;
      if last {
        ghost var b := Model();
        won := ClaimCompletion();
        ReachesThen(old(Model()), b, TryClaim, Model());
      }
    }
  }
}
