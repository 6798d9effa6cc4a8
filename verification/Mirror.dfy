/** The mirrored volume of src/rc_nvme.c: member states, application writes
  * passing the rebuild gate, and the rebuild thread, as interleaved atomic steps.
  *
  * Any number of writers run beside one rebuild thread.  Every access to shared
  * state that the C code makes on its own (read the generation, count, re-check,
  * read the window, one sector landing on one member, one sector read or
  * written by the copy) is a step of its own.
  */
module Mirror {
  import opened Common
  import opened Striping

  type Value = int

  /** RC_RESYNC_XFER_SECTORS: the length of the exclusion window. */
  const XFER: nat := 256

  datatype MemberState = Live | Failed | NeedsResync | Resyncing

  /** Where the volume keeps its sectors.  The protocol needs only what Sound
    * says; Raid1 and Raid10 below are the two layouts the driver rebuilds. */
  datatype Layout = Layout(
    members: nat,
    total: nat,                     // user sectors of one member
    capacity: nat,                  // sectors of the volume
    colOf: nat -> nat,              // column of a member
    col: nat -> nat,                // column of a logical sector
    at: nat -> nat,                 // its sector within that column
    logical: (nat, nat) -> nat,     // the rebuild's way back: (column, sector)
    room: nat -> nat)               // sectors up to the stripe boundary
  {
    ghost predicate Sound() {
      && members > 0 && total > 0
      && (forall x :: 0 <= x < capacity ==> at(x) < total)
      && (forall x, y ::
            0 <= x < capacity && 0 <= y < capacity && col(x) == col(y) && at(x) == at(y) ==> x == y)
      && (forall m, p :: 0 <= m < members && 0 <= p < total ==>
            Holds(logical(colOf(m), p), colOf(m), p))
      && (forall p :: 0 <= p < total ==> room(p) > 0)
      && (forall m, p, j ::
            0 <= m < members && 0 <= p && 0 <= j < room(p) && p + j < total ==> Contiguous(colOf(m), p, j))
    }

    predicate Contiguous(c: nat, p: nat, j: nat) {
      logical(c, p + j) == logical(c, p) + j
    }

    predicate Holds(x: nat, c: nat, p: nat) {
      x < capacity && col(x) == c && at(x) == p
    }
  }

  /** RAID1: every member holds the whole volume at identity. */
  function Raid1(members: nat, total: nat): Layout {
    Layout(members, total, total, (m: nat) => 0, (x: nat) => 0, (x: nat) => x,
           (c: nat, p: nat) => p, (p: nat) => if p < total then total - p else 0)
  }

  /** RAID10: column c is the mirror pair {2c, 2c+1}. */
  function Raid10(stripe: nat, cols: nat, total: nat): Layout
    requires stripe > 0 && cols > 0
  {
    Layout(2 * cols, total, total * cols, (m: nat) => m / 2,
           (x: nat) => Column(x, stripe, cols), (x: nat) => Phys(x, stripe, cols),
           (c: nat, p: nat) => Logical(c, p, stripe, cols), (p: nat) => stripe - p % stripe)
  }

  lemma Raid1Sound(members: nat, total: nat)
    requires members > 0 && total > 0
    ensures Raid1(members, total).Sound()
  {
  }

  /** Sound needs a member size of whole stripes; RebuildCoversVolumeIff says
    * what is lost without it. */
  lemma Raid10Sound(stripe: nat, cols: nat, total: nat)
    requires stripe > 0 && cols > 0 && total > 0 && total % stripe == 0
    ensures Raid10(stripe, cols, total).Sound()
  {
    var geo := Raid10(stripe, cols, total);
    forall x | 0 <= x < geo.capacity ensures geo.at(x) < total {
      PhysInRange(x, stripe, cols, total);
    }
    forall x, y | 0 <= x < geo.capacity && 0 <= y < geo.capacity
      && geo.col(x) == geo.col(y) && geo.at(x) == geo.at(y)
      ensures x == y
    {
      LogicalOfMap(x, stripe, cols);
      LogicalOfMap(y, stripe, cols);
    }
    forall m, p | 0 <= m < geo.members && 0 <= p < geo.total
      ensures geo.Holds(geo.logical(geo.colOf(m), p), geo.colOf(m), p)
    {
      LogicalInRange(m / 2, p, stripe, cols, total);
      MapOfLogical(m / 2, p, stripe, cols);
    }
    forall m, p, j | 0 <= m < geo.members && 0 <= p && 0 <= j < geo.room(p) && p + j < geo.total
      ensures geo.Contiguous(geo.colOf(m), p, j)
    {
      ChunkIsContiguous(m / 2, p, j, stripe, cols);
    }
    assert forall p :: 0 <= p < total ==> geo.room(p) > 0;
  }

  /** How far a WRITE or DISCARD has come.
    * Snapped: holds its mask snapshot, not yet counted (the gate retries from here).
    * Settled: every member has answered and the count is given back, but
    * rc_volume_finish_status has not marked the erring members yet. */
  datatype Phase =
    | Snapped
    | GenRead(g: nat)
    | Counted(g: nat)
    | Rechecked(g: nat)
    | Admitted(g: nat)
    | Settled

  /** One WRITE or DISCARD.  landed: pairs (member, sector) already on the media;
    * acked: members whose completion is consumed; err: those that answered with
    * an error or were answered for by the dead-member drain. */
  datatype Writer = Writer(pos: nat, data: seq<Value>, mask: set<nat>, phase: Phase,
                           landed: set<(nat, nat)>, acked: set<nat>, err: set<nat>)
  {
    function End(): nat { pos + |data| }
    predicate Covers(x: nat) { pos <= x < End() }
    predicate InBucket(b: nat) {
      (phase.Counted? || phase.Rechecked? || phase.Admitted?) && phase.g == b
    }
    predicate Overlaps(start: nat, len: nat) { pos < start + len && End() > start }
  }

  /** The rebuild thread's program counter. */
  datatype Thread =
    | Idle
    | Top
    | Published(srv: nat)
    | Draining(srv: nat, bucket: nat)
    | Copying(srv: nat, buf: seq<Value>, k: nat)
    | Ending(clean: bool)
  {
    predicate HasSurvivor() { Published? || Draining? || Copying? }
    predicate Running() { Top? || HasSurvivor() }
  }

  /** The shared state.  want[x] is a history variable: the data of the last
    * write on x whose members have all answered. */
  datatype Volume = Volume(
    geo: Layout,
    media: seq<seq<Value>>,
    present: seq<bool>,
    st: seq<MemberState>,
    live: set<nat>,
    wr: set<nat>,
    writers: map<nat, Writer>,
    wgen: nat,
    count: seq<int>,
    window: Option<nat>,
    thread: Thread,
    target: nat,
    cursor: nat,
    want: seq<Value>)

  /** Steps of one WRITE or DISCARD. */
  datatype WriteStep =
    | Begin(pos: nat, data: seq<Value>)
    | Drop
    | ReadGen
    | Count
    | Recheck
    | CheckWindow
    | Land(m: nat, x: nat)
    | Ack(m: nat, ok: bool)
    | Settle
    | Finish

  /** What happens to one member. */
  datatype MemberStep =
    | Fail
    | Remove
    | Detach
    | Readd(content: seq<Value>)
    | Reset

  /** Steps of the rebuild scheduler and its thread. */
  datatype RebuildStep =
    | Start(m: nat)
    | Pick
    | Flip
    | Drained
    | CopyRead
    | CopyWrite
    | Advance
    | Retry
    | Abort
    | Stop
    | Conclude

  datatype Step =
    | Write(id: nat, w: WriteStep)
    | Member(m: nat, e: MemberStep)
    | Rebuild(r: RebuildStep)

  // ---------- pieces of the steps ----------

  /** A write touches column c. */
  predicate Touches(geo: Layout, pos: nat, len: nat, c: nat)
  {
    exists x :: pos <= x < pos + len && geo.col(x) == c
  }

  /** The write-eligible members of the columns a write touches. */
  function MaskFor(geo: Layout, wr: set<nat>, pos: nat, len: nat): set<nat>
  {
    set m | m in wr && Touches(geo, pos, len, geo.colOf(m))
  }

  /** rc_volume_member_mark_failed for every member of ms. */
  function MarkFailed(s: Volume, ms: set<nat>): Volume
  {
    s.(live := s.live - ms, wr := s.wr - ms,
       st := seq(|s.st|, i requires 0 <= i < |s.st| =>
         if i in ms && (i in s.live || s.st[i] == Resyncing || s.st[i] == Live)
         then Failed else s.st[i]))
  }

  /** rc_volume_member_set_state. */
  function SetState(s: Volume, m: nat, st: MemberState): Volume
    requires m < |s.st|
  {
    s.(st := s.st[m := st],
       live := if st == Live then s.live + {m} else s.live - {m},
       wr := if st == Live || st == Resyncing then s.wr + {m} else s.wr - {m})
  }

  /** v holds a live copy of what t stores. */
  predicate CanServe(s: Volume, t: nat, v: nat)
    requires |s.present| == s.geo.members
  {
    v < s.geo.members && v != t && v in s.live && s.present[v] && s.geo.colOf(v) == s.geo.colOf(t)
  }

  /** rc_volume_resync_pick_survivor, scanning from slot i. */
  function PickSurvivor(s: Volume, t: nat, i: nat): (r: Option<nat>)
    requires |s.present| == s.geo.members
    ensures r.Some? ==> i <= r.value && CanServe(s, t, r.value)
    ensures r.None? ==> forall v :: i <= v < s.geo.members ==> !CanServe(s, t, v)
    decreases s.geo.members - i
  {
    if i >= s.geo.members then None
    else if CanServe(s, t, i) then Some(i)
    else PickSurvivor(s, t, i + 1)
  }

  /** Sectors of the chunk at the cursor, capped at the stripe boundary. */
  function ChunkLen(s: Volume): nat
    requires s.cursor <= s.geo.total
  {
    Least(XFER, Least(s.geo.room(s.cursor), s.geo.total - s.cursor))
  }

  /** First logical sector of the chunk at the cursor. */
  function ChunkStart(s: Volume): nat
  {
    s.geo.logical(s.geo.colOf(s.target), s.cursor)
  }

  /** Sector j of the chunk at the cursor is where the window says it is. */
  predicate ChunkAt(s: Volume, j: nat) {
    s.geo.Holds(ChunkStart(s) + j, s.geo.colOf(s.target), s.cursor + j)
  }

  function SetWriter(s: Volume, id: nat, w: Writer): Volume {
    s.(writers := s.writers[id := w])
  }

  function AddCount(s: Volume, g: nat, d: int): Volume
    requires g < |s.count|
  {
    s.(count := s.count[g := s.count[g] + d])
  }

  /** The new content of want once w settles. */
  function Overwrite(want: seq<Value>, w: Writer): seq<Value>
    requires w.End() <= |want|
  {
    want[..w.pos] + w.data + want[w.End()..]
  }

  // ---------- guards ----------

  /** Every sector of w that member m must store has landed there. */
  predicate AllLanded(geo: Layout, w: Writer, m: nat) {
    forall x :: w.pos <= x < w.End() && geo.col(x) == geo.colOf(m) ==> (m, x) in w.landed
  }

  /** The column of x has a member in wr. */
  predicate HasCopy(geo: Layout, wr: set<nat>, x: nat) {
    exists m :: m in wr && geo.colOf(m) == geo.col(x)
  }

  ghost predicate WriteEnabled(s: Volume, id: nat, l: WriteStep) {
    match l
    case Begin(pos, data) =>
      // the application keeps overlapping writes out of flight together;
      // a column with no write-eligible copy rejects the request
      && id !in s.writers && data != [] && pos + |data| <= s.geo.capacity
      && (forall j :: j in s.writers ==> !s.writers[j].Overlaps(pos, |data|))
      && (forall x :: pos <= x < pos + |data| ==> HasCopy(s.geo, s.wr, x))
    case Drop => id in s.writers && s.writers[id].phase.Snapped?
    case ReadGen => id in s.writers && s.writers[id].phase.Snapped?
    case Count => id in s.writers && s.writers[id].phase.GenRead?
    case Recheck => id in s.writers && s.writers[id].phase.Counted?
    case CheckWindow => id in s.writers && s.writers[id].phase.Rechecked?
    case Land(m, x) => Waiting(s, id, m) && s.writers[id].Covers(x) && s.geo.col(x) == s.geo.colOf(m)
    case Ack(m, ok) => Waiting(s, id, m) && (ok ==> AllLanded(s.geo, s.writers[id], m))
    case Settle =>
      id in s.writers && s.writers[id].phase.Admitted? && s.writers[id].acked == s.writers[id].mask
    case Finish => id in s.writers && s.writers[id].phase.Settled?
  }

  /** An admitted writer whose command on member m has not been answered. */
  predicate Waiting(s: Volume, id: nat, m: nat) {
    && id in s.writers && s.writers[id].phase.Admitted?
    && m in s.writers[id].mask && m !in s.writers[id].acked
  }

  ghost predicate MemberEnabled(s: Volume, m: nat, l: MemberStep)
    requires |s.st| == |s.present| == s.geo.members
  {
    m < s.geo.members &&
    match l
    case Fail => true
    case Remove => true
    case Detach =>
      // the rebuild is stopped first, and the queue freeze waits for every request
      s.st[m] == Failed && s.thread.Idle? && s.writers == map[]
    case Readd(content) => !s.present[m] && |content| == s.geo.total
    case Reset => s.present[m] && s.st[m] == Failed
  }

  ghost predicate RebuildEnabled(s: Volume, l: RebuildStep)
    requires |s.st| == |s.present| == s.geo.members && |s.count| == 2
    requires s.thread.Draining? ==> s.thread.bucket < 2
    requires s.cursor <= s.geo.total
  {
    match l
    case Start(m) =>
      && m < s.geo.members && s.present[m] && s.st[m] == NeedsResync && s.thread.Idle?
      && PickSurvivor(s, m, 0).Some?
    case Pick => s.thread.Top?
    case Flip => s.thread.Published?
    case Drained => s.thread.Draining? && s.count[s.thread.bucket] == 0
    case CopyRead => s.thread.Copying? && |s.thread.buf| < ChunkLen(s)
    case CopyWrite => s.thread.Copying? && |s.thread.buf| == ChunkLen(s) && s.thread.k < ChunkLen(s)
    case Advance => s.thread.Copying? && s.thread.k == ChunkLen(s)
    case Retry => s.thread.Copying?
    case Abort => s.thread.Copying?
    case Stop =>
      // in the drain the thread looks for a stop only after it has read the bucket
      // nonzero; the count may have fallen to zero since
      s.thread.Top? || s.thread.Draining?
    case Conclude => s.thread.Ending?
  }

  ghost predicate Enabled(s: Volume, l: Step)
    requires Shape(s)
  {
    match l
    case Write(id, w) => WriteEnabled(s, id, w)
    case Member(m, e) => MemberEnabled(s, m, e)
    case Rebuild(r) => RebuildEnabled(s, r)
  }

  // ---------- effects ----------

  function LandSector(s: Volume, id: nat, m: nat, x: nat): Volume
    requires Waiting(s, id, m) && s.writers[id].Covers(x)
    requires m < |s.media| && s.geo.at(x) < |s.media[m]|
  {
    var w := s.writers[id];
    SetWriter(s, id, w.(landed := w.landed + {(m, x)}))
      .(media := s.media[m := s.media[m][s.geo.at(x) := w.data[x - w.pos]]])
  }

  function ApplyWrite(s: Volume, id: nat, l: WriteStep): Volume
    requires Shape(s) && WriteEnabled(s, id, l)
  {
    match l
    case Begin(pos, data) =>
      SetWriter(s, id, Writer(pos, data, MaskFor(s.geo, s.wr, pos, |data|), Snapped, {}, {}, {}))
    case Drop => s.(writers := s.writers - {id})
    case ReadGen => SetWriter(s, id, s.writers[id].(phase := GenRead(s.wgen % 2)))
    case Count =>
      var w := s.writers[id];
      AddCount(SetWriter(s, id, w.(phase := Counted(w.phase.g))), w.phase.g, 1)
    case Recheck =>
      var w := s.writers[id];
      if s.wgen % 2 == w.phase.g
      then SetWriter(s, id, w.(phase := Rechecked(w.phase.g)))
      else AddCount(SetWriter(s, id, w.(phase := Snapped)), w.phase.g, -1)
    case CheckWindow =>
      var w := s.writers[id];
      if s.window.Some? && w.Overlaps(s.window.value, XFER)
      then AddCount(s.(writers := s.writers - {id}), w.phase.g, -1)
      else SetWriter(s, id, w.(phase := Admitted(w.phase.g)))
    case Land(m, x) => LandSector(s, id, m, x)
    case Ack(m, ok) =>
      var w := s.writers[id];
      SetWriter(s, id, w.(acked := w.acked + {m}, err := if ok then w.err else w.err + {m}))
    case Settle =>
      var w := s.writers[id];
      AddCount(SetWriter(s, id, w.(phase := Settled)), w.phase.g, -1)
        .(want := Overwrite(s.want, w))
    case Finish => MarkFailed(s, s.writers[id].err).(writers := s.writers - {id})
  }

  function ApplyMember(s: Volume, m: nat, l: MemberStep): Volume
    requires Shape(s) && MemberEnabled(s, m, l)
  {
    match l
    case Fail => MarkFailed(s, {m})
    case Remove => SetState(s, m, Failed)
    case Detach => s.(present := s.present[m := false])
    case Readd(content) =>
      SetState(s, m, NeedsResync).(present := s.present[m := true], media := s.media[m := content])
    case Reset => SetState(s, m, NeedsResync)
  }

  function ApplyRebuild(s: Volume, l: RebuildStep): Volume
    requires Shape(s) && RebuildEnabled(s, l)
  {
    match l
    case Start(m) => SetState(s, m, Resyncing).(target := m, cursor := 0, thread := Top)
    case Pick =>
      if s.cursor >= s.geo.total then s.(thread := Ending(true), window := None)
      else if !s.present[s.target] || s.st[s.target] != Resyncing
      then s.(thread := Ending(false), window := None)
      else
        var v := PickSurvivor(s, s.target, 0);
        if v.None? then s.(thread := Ending(false), window := None)
        else s.(window := Some(ChunkStart(s)), thread := Published(v.value))
    case Flip => s.(wgen := s.wgen + 1, thread := Draining(s.thread.srv, s.wgen % 2))
    case Drained => s.(thread := Copying(s.thread.srv, [], 0))
    case CopyRead =>
      var t := s.thread;
      s.(thread := t.(buf := t.buf + [s.media[t.srv][s.cursor + |t.buf|]]))
    case CopyWrite =>
      var t := s.thread;
      s.(media := s.media[s.target := s.media[s.target][s.cursor + t.k := t.buf[t.k]]],
         thread := t.(k := t.k + 1))
    case Advance => s.(cursor := s.cursor + ChunkLen(s), thread := Top)
    case Retry => s.(thread := Top)
    case Abort => s.(thread := Ending(false), window := None)
    case Stop => s.(thread := Ending(false), window := None)
    case Conclude => ConcludeRebuild(s)
  }

  /** The thread's exit under rc_volume_lock: promote, park, or leave a member
    * that failed meanwhile alone. */
  function ConcludeRebuild(s: Volume): Volume
    requires s.thread.Ending? && s.target < |s.st|
  {
    if s.thread.clean then
      if s.st[s.target] == Resyncing then SetState(s, s.target, Live).(thread := Idle)
      else s.(live := s.live - {s.target}, wr := s.wr - {s.target}, thread := Idle)
    else
      if s.st[s.target] == Resyncing then SetState(s, s.target, NeedsResync).(thread := Idle)
      else s.(thread := Idle)
  }

  function Apply(s: Volume, l: Step): Volume
    requires Shape(s) && Enabled(s, l)
  {
    match l
    case Write(id, w) => ApplyWrite(s, id, w)
    case Member(m, e) => ApplyMember(s, m, e)
    case Rebuild(r) => ApplyRebuild(s, r)
  }

  // ---------- what every reachable state satisfies, whatever the schedule ----------

  ghost predicate WriterOk(s: Volume, w: Writer)
    requires s.geo.Sound() && |s.present| == s.geo.members
  {
    && w.data != [] && w.End() <= s.geo.capacity
    && (forall m :: m in w.mask ==>
          m < s.geo.members && s.present[m] && Touches(s.geo, w.pos, |w.data|, s.geo.colOf(m)))
    && w.err <= w.acked <= w.mask
    && (w.phase.GenRead? || w.phase.Counted? || w.phase.Rechecked? || w.phase.Admitted? ==> w.phase.g < 2)
    && (!w.phase.Admitted? && !w.phase.Settled? ==> w.landed == {} && w.acked == {})
    && (w.phase.Settled? ==> w.acked == w.mask)
    && (forall m, x :: (m, x) in w.landed ==>
          m in w.mask && w.Covers(x) && s.geo.col(x) == s.geo.colOf(m))
  }

  function CountedIn(ws: map<nat, Writer>, b: nat): set<nat> {
    set id | id in ws && ws[id].InBucket(b)
  }

  ghost predicate MembersOk(s: Volume)
    requires s.geo.Sound()
  {
    var n := s.geo.members;
    && |s.media| == n && |s.present| == n && |s.st| == n
    && (forall m :: 0 <= m < n ==> |s.media[m]| == s.geo.total)
    && (forall m: nat :: m in s.live <==> m < n && s.st[m] == Live)
    && (forall m: nat :: m in s.wr <==> m < n && (s.st[m] == Live || s.st[m] == Resyncing))
    && (forall m :: 0 <= m < n && !s.present[m] ==> s.st[m] == Failed)
  }

  ghost predicate ThreadOk(s: Volume)
    requires s.geo.Sound() && MembersOk(s)
  {
    && s.target < s.geo.members && s.cursor <= s.geo.total
    && (!s.thread.Idle? ==> s.present[s.target] && s.st[s.target] != Live)
    && (s.thread.HasSurvivor() ==>
          s.thread.srv < s.geo.members && s.present[s.thread.srv]
          && s.geo.colOf(s.thread.srv) == s.geo.colOf(s.target)
          && s.cursor < s.geo.total)
    && (s.thread.Draining? ==> s.thread.bucket < 2)
    && (s.thread.Copying? ==>
          |s.thread.buf| <= ChunkLen(s) && s.thread.k <= |s.thread.buf|
          && (s.thread.k > 0 ==> |s.thread.buf| == ChunkLen(s)))
    && (s.thread.Ending? && s.thread.clean ==> s.cursor == s.geo.total)
  }

  ghost predicate WritersOk(s: Volume)
    requires s.geo.Sound() && |s.present| == s.geo.members
  {
    && (forall id :: id in s.writers ==> WriterOk(s, s.writers[id]))
    && (forall i, j :: i in s.writers && j in s.writers && i != j ==>
          !s.writers[i].Overlaps(s.writers[j].pos, |s.writers[j].data|))
  }

  ghost predicate CountOk(s: Volume) {
    |s.count| == 2 && forall b :: 0 <= b < 2 ==> s.count[b] == |CountedIn(s.writers, b)|
  }

  /** Sizes, masks that mirror the states, disjoint writers, and the two
    * generation counters equal to the counted requests not yet ended. */
  ghost predicate Shape(s: Volume) {
    && s.geo.Sound() && |s.want| == s.geo.capacity
    && MembersOk(s) && ThreadOk(s) && WritersOk(s) && CountOk(s)
  }

  /** No other thread interferes: whoever resyncs is the target, the window is the
    * thread's own, and the bucket it drains is the one it flipped away from. */
  ghost predicate Single(s: Volume)
    requires Shape(s)
  {
    && (forall m :: 0 <= m < s.geo.members && s.st[m] == Resyncing ==> !s.thread.Idle? && m == s.target)
    && (s.thread.HasSurvivor() ==> s.window == Some(ChunkStart(s)))
    && (s.thread.Draining? ==> s.thread.bucket != s.wgen % 2)
  }

  /** A freshly assembled volume: all members live with equal content. */
  ghost predicate Init(s: Volume) {
    && s.geo.Sound() && |s.want| == s.geo.capacity
    && var n := s.geo.members;
    && |s.media| == n && |s.present| == n && |s.st| == n
    && (forall m :: 0 <= m < n ==> |s.media[m]| == s.geo.total && s.present[m] && s.st[m] == Live)
    && (forall m: nat :: m in s.live <==> m < n) && s.wr == s.live
    && s.writers == map[] && s.count == [0, 0] && s.window == None
    && s.thread == Idle && s.target == 0 && s.cursor == 0
    && forall m, x :: 0 <= m < n && 0 <= x < s.geo.capacity && s.geo.col(x) == s.geo.colOf(m)
         ==> s.geo.at(x) < s.geo.total && s.media[m][s.geo.at(x)] == s.want[x]
  }
}
