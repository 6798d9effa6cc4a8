/** All requests of the volume in src/rc_nvme.c together with the two write-generation
  * counters, and the per-request structure as its handlers update it in place. */
module CompletionVolume {
  import opened FinishStatus
  import opened Completion

  /** counts: rc_volume_wgen_count. */
  datatype Volume = Volume(reqs: map<nat, Req>, count0: int, count1: int)

  datatype VStep =
    | Start(id: nat, r: Req)
    | Local(id: nat, l: Step)

  predicate VEnabled(v: Volume, s: VStep) {
    match s
    case Start(id, r) => id !in v.reqs && Started(r) && r.gen < 2
    case Local(id, l) => id in v.reqs && Enabled(v.reqs[id], l)
  }

  function Bump(v: Volume, gen: nat, d: int): Volume {
    if gen == 0 then v.(count0 := v.count0 + d) else v.(count1 := v.count1 + d)
  }

  /** The gate counts a request in as it starts; the unmap counts it out. */
  function VApply(v: Volume, s: VStep): Volume
    requires VEnabled(v, s)
  {
    match s
    case Start(id, r) =>
      var v' := v.(reqs := v.reqs[id := r]);
      if r.counted then Bump(v', r.gen, 1) else v'
    case Local(id, l) =>
      var r := v.reqs[id];
      var v' := v.(reqs := v.reqs[id := Apply(r, l)]);
      if l.Settle? && r.counted then Bump(v', r.gen, -1) else v'
  }

  predicate In(r: Req, gen: nat) {
    r.counted && r.gen == gen
  }

  /** Requests counted in generation gen and not yet released. */
  function CountedIn(reqs: map<nat, Req>, gen: nat): set<nat> {
    set id | id in reqs && In(reqs[id], gen)
  }

  predicate ReqsOk(reqs: map<nat, Req>) {
    forall id :: id in reqs ==> Inv(reqs[id]) && reqs[id].gen < 2
  }

  predicate VInv(v: Volume) {
    && ReqsOk(v.reqs)
    && v.count0 == |CountedIn(v.reqs, 0)|
    && v.count1 == |CountedIn(v.reqs, 1)|
  }

  function One(b: bool): nat { if b then 1 else 0 }

  /** Replacing one request moves one element at most. */
  lemma CountMoves(reqs: map<nat, Req>, id: nat, r: Req, gen: nat)
    ensures
      |CountedIn(reqs[id := r], gen)| == |CountedIn(reqs, gen)| - One(id in reqs && In(reqs[id], gen)) + One(In(r, gen))
  {
    var was, now := CountedIn(reqs, gen), CountedIn(reqs[id := r], gen);
    forall k | k != id ensures k in now <==> k in was {}
    assert id in now <==> In(r, gen);
    Moved(was, now, id);
  }

  lemma Moved(was: set<nat>, now: set<nat>, id: nat)
    requires forall k :: k != id ==> (k in now <==> k in was)
    ensures |now| == |was| - One(id in was) + One(id in now)
  {
    assert now - {id} == was - {id};
    if id in was { assert was == (was - {id}) + {id}; } else { assert was - {id} == was; }
    if id in now { assert now == (now - {id}) + {id}; } else { assert now - {id} == now; }
  }

  lemma StepKeepsGen(r: Req, l: Step)
    requires Enabled(r, l)
    ensures Apply(r, l).gen == r.gen
    ensures Apply(r, l).counted == (r.counted && !l.Settle?)
  {
  }

  lemma ReqsKept(reqs: map<nat, Req>, id: nat, r: Req)
    requires ReqsOk(reqs) && Inv(r) && r.gen < 2
    ensures ReqsOk(reqs[id := r])
  {
  }

  /** counted: the request's flag before and after, one of its steps between. */
  lemma CountsFollow(v: Volume, id: nat, l: Step)
    requires VEnabled(v, Local(id, l)) && v.reqs[id].gen < 2
    requires v.count0 == |CountedIn(v.reqs, 0)| && v.count1 == |CountedIn(v.reqs, 1)|
    ensures
      var v' := VApply(v, Local(id, l));
      v'.count0 == |CountedIn(v'.reqs, 0)| && v'.count1 == |CountedIn(v'.reqs, 1)|
  {
    var r, r' := v.reqs[id], Apply(v.reqs[id], l);
    StepKeepsGen(r, l);
    CountMoves(v.reqs, id, r', 0);
    CountMoves(v.reqs, id, r', 1);
  }

  lemma VStepKeepsInv(v: Volume, s: VStep)
    requires VInv(v) && VEnabled(v, s)
    ensures VInv(VApply(v, s))
  {
    match s
    case Start(id, r) =>
      StartedInv(r);
      ReqsKept(v.reqs, id, r);
      CountMoves(v.reqs, id, r, 0);
      CountMoves(v.reqs, id, r, 1);
    case Local(id, l) =>
      StepKeepsInv(v.reqs[id], l);
      StepKeepsGen(v.reqs[id], l);
      ReqsKept(v.reqs, id, Apply(v.reqs[id], l));
      CountsFollow(v, id, l);
  }

  predicate VLegal(v: Volume, steps: seq<VStep>)
    decreases |steps|
  {
    steps == [] || (VEnabled(v, steps[0]) && VLegal(VApply(v, steps[0]), steps[1..]))
  }

  function VRun(v: Volume, steps: seq<VStep>): Volume
    requires VLegal(v, steps)
    decreases |steps|
  {
    if steps == [] then v else VRun(VApply(v, steps[0]), steps[1..])
  }

  lemma {:induction false} VRunKeepsInv(v: Volume, steps: seq<VStep>)
    requires VInv(v) && VLegal(v, steps)
    ensures VInv(VRun(v, steps))
    decreases |steps|
  {
    if steps != [] {
      VStepKeepsInv(v, steps[0]);
      VRunKeepsInv(VApply(v, steps[0]), steps[1..]);
    }
  }

  /** In every run, over any number of requests: the two generation counters are exactly
    * the counted requests not yet released, and no ended request is among them; so a
    * counter the resync thread finds at zero has no unended write behind it. */
  lemma CountersAreUnended(steps: seq<VStep>)
    requires VLegal(Volume(map[], 0, 0), steps)
    ensures var v := VRun(Volume(map[], 0, 0), steps);
      && v.count0 == |CountedIn(v.reqs, 0)| && v.count1 == |CountedIn(v.reqs, 1)|
      && (forall id :: id in v.reqs && v.reqs[id].ended != [] ==> !v.reqs[id].counted)
      && (v.count0 == 0 ==> forall id :: id in v.reqs && v.reqs[id].gen == 0 ==> !v.reqs[id].counted)
      && (v.count1 == 0 ==> forall id :: id in v.reqs && v.reqs[id].gen == 1 ==> !v.reqs[id].counted)
  {
    var none := Volume(map[], 0, 0);
    VRunKeepsInv(none, steps);
    var v := VRun(none, steps);
    forall id | id in v.reqs ensures Inv(v.reqs[id]) {}
    forall gen, id | 0 <= gen < 2 && id in v.reqs && |CountedIn(v.reqs, gen)| == 0 && v.reqs[id].gen == gen
      ensures !v.reqs[id].counted
    {
      assert id !in CountedIn(v.reqs, gen);
    }
  }
}
