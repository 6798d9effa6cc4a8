/** The volume as the driver keeps it: static fields updated in place, one method
  * an atomic step.  Each method is proved equal to its step of Mirror, so the run
  * theorems of MirrorExclusion and MirrorSafety are about these methods in any
  * interleaving. */
module MirrorVolume {
  import opened Common
  import opened Mirror
  import opened MirrorShape

  class MirrorSet {
    const geo: Layout
    var media: seq<seq<Value>>
    var present: seq<bool>
    var st: seq<MemberState>
    var live: set<nat>
    var wr: set<nat>
    var writers: map<nat, Writer>
    var wgen: nat
    var count: seq<int>
    var window: Option<nat>
    var thread: Thread
    var target: nat
    var cursor: nat
    var want: seq<Value>

    ghost function Model(): Volume
      reads this
    {
      Volume(geo, media, present, st, live, wr, writers, wgen, count, window, thread, target, cursor, want)
    }

    ghost predicate Valid()
      reads this
    {
      Shape(Model())
    }

    /** Assembly of a complete member set holding the same data. */
    constructor (geo: Layout, content: seq<Value>)
      requires geo.Sound() && |content| == geo.capacity
      ensures Valid() && Init(Model()) && want == content
    {
      this.geo := geo;
      media := seq(geo.members, (m: nat) => seq(geo.total, (p: nat) => Cell(geo, content, m, p)));
      present := seq(geo.members, _ => true);
      st := seq(geo.members, _ => Live);
      live, wr := Upto(geo.members), Upto(geo.members);
      writers, wgen, count, window := map[], 0, [0, 0], None;
      thread, target, cursor, want := Idle, 0, 0, content;
      new;
      AssemblyIsInit(Model(), content);
      InitShape(Model());
    }

    // ---------- member states ----------

    /** rc_volume_member_mark_failed. */
    method MarkMemberFailed(m: nat)
      requires m < |st|
      modifies this`st, this`live, this`wr
      ensures Model() == MarkFailed(old(Model()), {m})
      ensures live == old(live) - {m} && wr == old(wr) - {m}
      ensures st == (if m in old(live) || old(st)[m] == Live || old(st)[m] == Resyncing
                     then old(st)[m := Failed] else old(st))
    {
      wr := wr - {m};
      var prev := m in live;
      live := live - {m};
      if prev || st[m] == Resyncing || st[m] == Live {
        st := st[m := Failed];
      }
      assert st == MarkFailed(old(Model()), {m}).st;
    }

    /** rc_volume_member_set_state. */
    method SetMemberState(m: nat, to: MemberState)
      requires m < |st|
      modifies this`st, this`live, this`wr
      ensures Model() == SetState(old(Model()), m, to)
      ensures st == old(st)[m := to] && live == (if to == Live then old(live) + {m} else old(live) - {m})
      ensures wr == if to == Live || to == Resyncing then old(wr) + {m} else old(wr) - {m}
    {
      st := st[m := to];
      if to == Live { live := live + {m}; } else { live := live - {m}; }
      if to == Live || to == Resyncing { wr := wr + {m}; } else { wr := wr - {m}; }
    }

    /** rc_volume_register_member against a live volume: re-added, parked. */
    method ReAdd(m: nat, content: seq<Value>)
      requires Valid() && MemberEnabled(Model(), m, Readd(content))
      modifies this
      ensures Valid() && Model() == ApplyMember(old(Model()), m, Readd(content))
      ensures st == old(st)[m := NeedsResync] && live == old(live) - {m} && wr == old(wr) - {m}
      ensures present == old(present)[m := true] && media == old(media)[m := content]
      ensures thread.Idle? && (exists v :: CanServe(Model(), m, v)) ==> RebuildEnabled(Model(), Start(m))
    {
      MemberKeepsShape(Model(), m, Readd(content));
      present := present[m := true];
      media := media[m := content];
      SetMemberState(m, NeedsResync);
    }

    /** rc_nvme_reset_controller: a recovered mirror member is stale. */
    method Recovered(m: nat)
      requires Valid() && m < geo.members && present[m]
      modifies this
      ensures Valid()
      ensures Model() == if old(st)[m] == Failed then ApplyMember(old(Model()), m, Reset) else old(Model())
      ensures st == (if old(st)[m] == Failed then old(st)[m := NeedsResync] else old(st))
      ensures live == old(live) && wr == old(wr) && present == old(present) && media == old(media)
    {
      if st[m] == Failed {
        MemberKeepsShape(Model(), m, Reset);
        SetMemberState(m, NeedsResync);
      }
    }

    // ---------- one WRITE or DISCARD ----------

    /** The mask snapshot at the head of the mirror dispatch. */
    method Snapshot(id: nat, pos: nat, data: seq<Value>)
      requires Valid() && WriteEnabled(Model(), id, Begin(pos, data))
      modifies this`writers
      ensures Valid() && Model() == ApplyWrite(old(Model()), id, Begin(pos, data))
      ensures id in writers && writers == old(writers)[id := Writer(pos, data, writers[id].mask, Snapped, {}, {}, {})]
      ensures forall m: nat :: m in writers[id].mask <==>
        m in wr && exists x :: pos <= x < pos + |data| && geo.col(x) == geo.colOf(m)
    {
      WriteKeepsShape(Model(), id, Begin(pos, data));
      var mask := MaskFor(geo, wr, pos, |data|);
      writers := writers[id := Writer(pos, data, mask, Snapped, {}, {}, {})];
    }

    /** rc_volume_resync_gate, its four accesses one by one. */
    method GateReadGeneration(id: nat)
      requires Valid() && WriteEnabled(Model(), id, ReadGen)
      modifies this`writers
      ensures Valid() && Model() == ApplyWrite(old(Model()), id, ReadGen)
      ensures writers == old(writers)[id := old(writers)[id].(phase := GenRead(wgen % 2))]
    {
      WriteKeepsShape(Model(), id, ReadGen);
      writers := writers[id := writers[id].(phase := GenRead(wgen % 2))];
    }

    method GateCount(id: nat)
      requires Valid() && WriteEnabled(Model(), id, Count)
      modifies this`writers, this`count
      ensures Valid() && Model() == ApplyWrite(old(Model()), id, Count)
      ensures writers == old(writers)[id := old(writers)[id].(phase := Counted(old(writers)[id].phase.g))]
      ensures var g := old(writers)[id].phase.g;
        g < |old(count)| && count == old(count)[g := old(count)[g] + 1]
    {
      WriteKeepsShape(Model(), id, Count);
      var g := writers[id].phase.g;
      BucketOf(Model(), id);
      count := count[g := count[g] + 1];
      writers := writers[id := writers[id].(phase := Counted(g))];
    }

    method GateRecheck(id: nat) returns (again: bool)
      requires Valid() && WriteEnabled(Model(), id, Recheck)
      modifies this`writers, this`count
      ensures Valid() && Model() == ApplyWrite(old(Model()), id, Recheck)
      ensures var w := old(writers)[id]; var g := w.phase.g;
        && (again <==> wgen % 2 != g) && g < |old(count)|
        && writers == old(writers)[id := w.(phase := if again then Snapped else Rechecked(g))]
        && count == if again then old(count)[g := old(count)[g] - 1] else old(count)
      ensures again <==> writers[id].phase.Snapped?
    {
      WriteKeepsShape(Model(), id, Recheck);
      var g := writers[id].phase.g;
      assert WriterOk(Model(), writers[id]);
      again := wgen % 2 != g;
      if again {
        count := count[g := count[g] - 1];
        writers := writers[id := writers[id].(phase := Snapped)];
      } else {
        writers := writers[id := writers[id].(phase := Rechecked(g))];
      }
    }

    /** False: DEV_RESOURCE, and the request goes back to blk-mq. */
    method GateReadWindow(id: nat) returns (admitted: bool)
      requires Valid() && WriteEnabled(Model(), id, CheckWindow)
      modifies this`writers, this`count
      ensures Valid() && Model() == ApplyWrite(old(Model()), id, CheckWindow)
      ensures var w := old(writers)[id]; var g := w.phase.g;
        && (admitted <==> window.None? || w.End() <= window.value || window.value + XFER <= w.pos)
        && writers == (if admitted then old(writers)[id := w.(phase := Admitted(g))] else old(writers) - {id})
        && g < |old(count)| && count == if admitted then old(count) else old(count)[g := old(count)[g] - 1]
      ensures admitted <==> id in writers
    {
      WriteKeepsShape(Model(), id, CheckWindow);
      var w := writers[id];
      assert WriterOk(Model(), w);
      if window.Some? && w.pos < window.value + XFER && w.End() > window.value {
        count := count[w.phase.g := count[w.phase.g] - 1];
        writers := writers - {id};
        admitted := false;
      } else {
        writers := writers[id := w.(phase := Admitted(w.phase.g))];
        admitted := true;
      }
    }

    /** rc_volume_resync_gate in one go, nobody interfering: a request that misses the
      * window is counted under the current generation, any other leaves no trace. */
    method Gate(id: nat) returns (admitted: bool)
      requires Valid() && id in writers && writers[id].phase.Snapped?
      modifies this`writers, this`count
      ensures Valid() && (admitted <==> window.None? || !old(writers)[id].Overlaps(window.value, XFER))
      ensures admitted ==> Model() == Entered(old(Model()), id, Admitted(wgen % 2))
      ensures !admitted ==> Model() == old(Model()).(writers := old(writers) - {id})
    {
      ghost var s := Model();
      var again := true;
      while again
        invariant Valid() && (again ==> Model() == s)
        invariant !again ==> Model() == Entered(s, id, Rechecked(wgen % 2))
        decreases again
      {
        GateReadGeneration(id);
        GateCount(id);
        again := GateRecheck(id);
        GateAlone(s, id);
      }
      admitted := GateReadWindow(id);
      LeaveNoTrace(s, id);
    }

    /** The last answer is in: rc_volume_unmap_request_sg gives the count back. */
    method GiveBackCount(id: nat)
      requires Valid() && WriteEnabled(Model(), id, Settle)
      modifies this`writers, this`count, this`want
      ensures Valid() && Model() == ApplyWrite(old(Model()), id, Settle)
      ensures var w := old(writers)[id]; var g := w.phase.g;
        && writers == old(writers)[id := w.(phase := Settled)]
        && g < |old(count)| && count == old(count)[g := old(count)[g] - 1]
        && |want| == |old(want)|
      ensures var w := old(writers)[id];
        forall x :: 0 <= x < |want| ==> want[x] == if w.pos <= x < w.End() then w.data[x - w.pos] else old(want)[x]
    {
      WriteKeepsShape(Model(), id, Settle);
      var w := writers[id];
      assert WriterOk(Model(), w);
      count := count[w.phase.g := count[w.phase.g] - 1];
      writers := writers[id := w.(phase := Settled)];
      want := want[..w.pos] + w.data + want[w.End()..];
    }

    /** rc_volume_finish_status marks every erring member failed, one by one. */
    method MarkAllFailed(errs: set<nat>)
      requires forall m :: m in errs ==> m < |st|
      modifies this`st, this`live, this`wr
      ensures Model() == MarkFailed(old(Model()), errs)
    {
      ghost var s := Model();
      var left := errs;
      MarkNone(s);
      while left != {}
        invariant left <= errs
        invariant Model() == MarkFailed(s, errs - left)
        decreases left
      {
        var m :| m in left;
        MarkOneMore(s, errs - left, m);
        MarkMemberFailed(m);
        left := left - {m};
        assert errs - left == errs - (left + {m}) + {m};
      }
      assert errs - left == errs;
    }

    method FinishRequest(id: nat)
      requires Valid() && WriteEnabled(Model(), id, Finish)
      modifies this`writers, this`st, this`live, this`wr
      ensures Valid() && Model() == ApplyWrite(old(Model()), id, Finish)
      ensures var errs := old(writers)[id].err;
        && writers == old(writers) - {id} && live == old(live) - errs && wr == old(wr) - errs
        && |st| == |old(st)|
        && forall m :: 0 <= m < |st| ==>
             st[m] == (if m in errs && (old(st)[m] == Live || old(st)[m] == Resyncing) then Failed else old(st)[m])
    {
      WriteKeepsShape(Model(), id, Finish);
      assert WriterOk(Model(), writers[id]);
      MarkAllFailed(writers[id].err);
      writers := writers - {id};
    }

    // ---------- the rebuild ----------

    /** Slot i holds a live, present copy of what slot t stores, and is not t. */
    predicate IsSurvivor(t: nat, i: nat)
      reads this`live, this`present
    {
      i < geo.members && i != t && i in live && i < |present| && present[i] && geo.colOf(i) == geo.colOf(t)
    }

    /** rc_volume_resync_pick_survivor. */
    method FindSurvivor(t: nat) returns (v: Option<nat>)
      requires Valid()
      ensures v == PickSurvivor(Model(), t, 0)
      ensures v.Some? ==> IsSurvivor(t, v.value) && forall i :: 0 <= i < v.value ==> !IsSurvivor(t, i)
      ensures v.None? ==> forall i: nat :: !IsSurvivor(t, i)
    {
      for i := 0 to geo.members
        invariant PickSurvivor(Model(), t, 0) == PickSurvivor(Model(), t, i)
        invariant forall j :: 0 <= j < i ==> !IsSurvivor(t, j)
      {
        if i != t && i in live && present[i] && geo.colOf(i) == geo.colOf(t) {
          return Some(i);
        }
      }
      return None;
    }

    /** rc_volume_rebuild_fn: the first parked slot with a survivor, unless a rebuild is
      * running.  barred: tearing down, no disk, or a read-only one. */
    method StartRebuild(barred: bool) returns (pick: Option<nat>)
      requires Valid()
      modifies this`st, this`live, this`wr, this`target, this`cursor, this`thread
      ensures Valid()
      ensures pick.Some? ==> !barred && RebuildEnabled(old(Model()), Start(pick.value))
      ensures pick.Some? ==> Model() == ApplyRebuild(old(Model()), Start(pick.value))
      ensures pick.Some? ==>
        var m := pick.value;
        && m < |old(st)| && old(st)[m] == NeedsResync && present[m] && old(thread).Idle?
        && st == old(st)[m := Resyncing] && live == old(live) - {m} && wr == old(wr) + {m}
        && target == m && cursor == 0 && thread == Top
      ensures pick.Some? ==> forall m :: 0 <= m < pick.value ==> !RebuildEnabled(old(Model()), Start(m))
      ensures pick.None? ==> Model() == old(Model())
      ensures pick.None? && !barred ==> forall m: nat :: !RebuildEnabled(old(Model()), Start(m))
    {
      ghost var s := Model();
      if barred || !thread.Idle? { return None; }
      for slot := 0 to geo.members
        invariant Model() == s && forall m :: 0 <= m < slot ==> !RebuildEnabled(s, Start(m))
      {
        var v := FindSurvivor(slot);
        if present[slot] && st[slot] == NeedsResync && v.Some? {
          BeginRebuild(slot);
          return Some(slot);
        }
      }
      return None;
    }

    /** The start of a rebuild of slot m, whose thread is created. */
    method BeginRebuild(m: nat)
      requires Valid() && RebuildEnabled(Model(), Start(m))
      modifies this`st, this`live, this`wr, this`target, this`cursor, this`thread
      ensures Valid() && Model() == ApplyRebuild(old(Model()), Start(m))
    {
      RebuildKeepsShape(Model(), Start(m));
      SetMemberState(m, Resyncing);
      target, cursor, thread := m, 0, Top;
    }

    /** The head of the copy loop: check both ends, publish the window. */
    method PublishChunk()
      requires Valid() && RebuildEnabled(Model(), Pick)
      modifies this`window, this`thread
      ensures Valid() && Model() == ApplyRebuild(old(Model()), Pick)
      ensures var going := cursor < geo.total && present[target] && st[target] == Resyncing;
        && (thread == Ending(true) <==> cursor >= geo.total)
        && (thread.Published? <==> going && exists v :: IsSurvivor(target, v))
        && (thread.Published? ==> IsSurvivor(target, thread.srv))
        && (thread.Published? ==> window == Some(geo.logical(geo.colOf(target), cursor)))
        && (!thread.Published? ==> thread.Ending? && window == None)
    {
      RebuildKeepsShape(Model(), Pick);
      if cursor >= geo.total {
        thread, window := Ending(true), None;
      } else if !present[target] || st[target] != Resyncing {
        thread, window := Ending(false), None;
      } else {
        var v := FindSurvivor(target);
        assert forall i: nat :: IsSurvivor(target, i) ==> v.Some?;
        if v.None? {
          thread, window := Ending(false), None;
        } else {
          window := Some(geo.logical(geo.colOf(target), cursor));
          thread := Published(v.value);
          assert IsSurvivor(target, v.value);
        }
      }
    }

    method FlipGeneration()
      requires Valid() && RebuildEnabled(Model(), Flip)
      modifies this`wgen, this`thread
      ensures Valid() && Model() == ApplyRebuild(old(Model()), Flip)
      ensures wgen == old(wgen) + 1 && thread == Draining(old(thread).srv, old(wgen) % 2)
    {
      RebuildKeepsShape(Model(), Flip);
      thread := Draining(thread.srv, wgen % 2);
      wgen := wgen + 1;
    }

    /** One look at the drained bucket. */
    method PollDrain() returns (done: bool)
      requires Valid() && thread.Draining?
      modifies this`thread
      ensures Valid() && (done <==> RebuildEnabled(old(Model()), Drained))
      ensures Model() == if done then ApplyRebuild(old(Model()), Drained) else old(Model())
      ensures var b := old(thread).bucket;
        && b < |count| && (done <==> count[b] == 0)
        && thread == if done then Copying(old(thread).srv, [], 0) else old(thread)
    {
      done := count[thread.bucket] == 0;
      if done {
        RebuildKeepsShape(Model(), Drained);
        thread := Copying(thread.srv, [], 0);
      }
    }

    method ReadSector()
      requires Valid() && RebuildEnabled(Model(), CopyRead)
      modifies this`thread
      ensures Valid() && Model() == ApplyRebuild(old(Model()), CopyRead)
      ensures var t := old(thread); var p := cursor + |t.buf|;
        t.srv < |media| && p < |media[t.srv]| && thread == Copying(t.srv, t.buf + [media[t.srv][p]], t.k)
    {
      ChunkSectors(Model());
      RebuildKeepsShape(Model(), CopyRead);
      thread := thread.(buf := thread.buf + [media[thread.srv][cursor + |thread.buf|]]);
    }

    method WriteSector()
      requires Valid() && RebuildEnabled(Model(), CopyWrite)
      modifies this`media, this`thread
      ensures Valid() && Model() == ApplyRebuild(old(Model()), CopyWrite)
      ensures var t := old(thread); var p := cursor + t.k;
        && target < |old(media)| && p < |old(media)[target]| && t.k < |t.buf|
        && media == old(media)[target := old(media)[target][p := t.buf[t.k]]]
        && thread == Copying(t.srv, t.buf, t.k + 1)
    {
      ghost var was := Model();
      ChunkSectors(was);
      RebuildKeepsShape(was, CopyWrite);
      var k := thread.k;
      media := media[target := media[target][cursor + k := thread.buf[k]]];
      thread := thread.(k := k + 1);
      assert Model() == ApplyRebuild(was, CopyWrite);
    }

    method AdvanceCursor()
      requires Valid() && RebuildEnabled(Model(), Advance)
      modifies this`thread, this`cursor
      ensures Valid() && Model() == ApplyRebuild(old(Model()), Advance)
      ensures thread == Top && cursor == old(cursor) + |old(thread).buf|
    {
      RebuildKeepsShape(Model(), Advance);
      cursor := cursor + Least(XFER, Least(geo.room(cursor), geo.total - cursor));
      thread := Top;
    }

    /** rc_volume_resync_rw, reading the whole chunk from the survivor. */
    method ReadChunk()
      requires Valid() && thread.Copying? && thread.buf == [] && thread.k == 0
      modifies this`thread
      ensures Valid()
      ensures var s := old(Model()); Model() == s.(thread := s.thread.(buf := Lane(s, ChunkLen(s))))
    {
      ghost var s := Model();
      ChunkSectors(s);
      var n := Least(XFER, Least(geo.room(cursor), geo.total - cursor));
      assert Lane(s, 0) == [];
      while |thread.buf| < n
        invariant Valid() && thread.Copying? && |thread.buf| <= n == ChunkLen(s)
        invariant Model() == s.(thread := s.thread.(buf := Lane(s, |thread.buf|)))
        decreases n - |thread.buf|
      {
        ghost var j := |thread.buf|;
        ReadSector();
        assert Lane(s, j + 1) == Lane(s, j) + [s.media[s.thread.srv][s.cursor + j]];
      }
    }

    /** The same, writing it to the target. */
    method WriteChunk()
      requires Valid() && thread.Copying? && thread.k == 0 && thread.buf == Lane(Model(), ChunkLen(Model()))
      modifies this`media, this`thread
      ensures Valid()
      ensures var s := old(Model()); Model() == Copied(s, ChunkLen(s)).(thread := s.thread.(k := ChunkLen(s)))
    {
      ghost var s := Model();
      ChunkSectors(s);
      var n := Least(XFER, Least(geo.room(cursor), geo.total - cursor));
      CopiedNothing(s);
      while thread.k < n
        invariant Valid() && thread.Copying? && thread.k <= n
        invariant Model() == Copied(s, thread.k).(thread := s.thread.(k := thread.k))
        decreases n - thread.k
      {
        CopiedOneMore(s, thread.k);
        WriteSector();
      }
    }

    /** The chunk at the cursor in one go, nobody interfering: read from the survivor,
      * written to the target, cursor moved on. */
    method CopyChunk()
      requires Valid() && thread.Copying? && thread.buf == [] && thread.k == 0
      modifies this`media, this`thread, this`cursor
      ensures Valid()
      ensures var s := old(Model()); Model() == Copied(s, ChunkLen(s)).(thread := Top, cursor := s.cursor + ChunkLen(s))
    {
      ChunkSectors(Model());
      ReadChunk();
      WriteChunk();
      AdvanceCursor();
    }

    /** The exit of a complete rebuild: raise both bits, then promote by
      * compare-and-exchange, or take the bits back. */
    method Promote()
      requires Valid() && thread == Ending(true)
      modifies this`st, this`live, this`wr, this`thread
      ensures Valid() && Model() == ApplyRebuild(old(Model()), Conclude)
      ensures thread == Idle
      ensures old(st)[target] == Resyncing ==>
        st == old(st)[target := Live] && live == old(live) + {target} && wr == old(wr) + {target}
      ensures old(st)[target] != Resyncing ==>
        st == old(st) && live == old(live) - {target} && wr == old(wr) - {target}
    {
      RebuildKeepsShape(Model(), Conclude);
      ghost var s := Model();
      RaiseBits();
      if st[target] == Resyncing {
        st := st[target := Live];
      } else {
        TakeBackBits(s);
      }
      thread := Idle;
    }

    method RaiseBits()
      modifies this`live, this`wr
      ensures wr == old(wr) + {target} && live == old(live) + {target}
    {
      wr := wr + {target};
      live := live + {target};
    }

    method TakeBackBits(ghost s: Volume)
      requires live == s.live + {target} && wr == s.wr + {target}
      modifies this`live, this`wr
      ensures live == s.live - {target} && wr == s.wr - {target}
    {
      wr := wr - {target};
      live := live - {target};
    }

    /** The exit of an aborted rebuild. */
    method ParkTarget()
      requires Valid() && thread == Ending(false)
      modifies this`st, this`wr, this`thread
      ensures Valid() && Model() == ApplyRebuild(old(Model()), Conclude)
      ensures thread == Idle
      ensures old(st)[target] == Resyncing ==> st == old(st)[target := NeedsResync] && wr == old(wr) - {target}
      ensures old(st)[target] != Resyncing ==> st == old(st) && wr == old(wr)
    {
      RebuildKeepsShape(Model(), Conclude);
      if st[target] == Resyncing {
        assert live - {target} == live;
        st := st[target := NeedsResync];
        wr := wr - {target};
      }
      thread := Idle;
    }
  }

  /** The write is counted under generation parity g, in the phase given. */
  function Entered(s: Volume, id: nat, p: Phase): Volume
    requires id in s.writers && |s.count| == 2
  {
    AddCount(SetWriter(s, id, s.writers[id].(phase := p)), s.wgen % 2, 1)
  }

  lemma GateAlone(s: Volume, id: nat)
    requires Shape(s) && WriteEnabled(s, id, ReadGen)
    ensures
      var a := ApplyWrite(s, id, ReadGen);
      Shape(a) && WriteEnabled(a, id, Count) &&
      var b := ApplyWrite(a, id, Count);
      Shape(b) && WriteEnabled(b, id, Recheck) && ApplyWrite(b, id, Recheck) == Entered(s, id, Rechecked(s.wgen % 2))
  {
    WriteKeepsShape(s, id, ReadGen);
    var a := ApplyWrite(s, id, ReadGen);
    WriteKeepsShape(a, id, Count);
    CountedAlone(s, a, id);
    RecheckedAlone(s, ApplyWrite(a, id, Count), id);
  }

  lemma CountedAlone(s: Volume, a: Volume, id: nat)
    requires Shape(s) && WriteEnabled(s, id, ReadGen) && a == ApplyWrite(s, id, ReadGen) && Shape(a)
    ensures WriteEnabled(a, id, Count) && ApplyWrite(a, id, Count) == Entered(s, id, Counted(s.wgen % 2))
  {
    var g, w := s.wgen % 2, s.writers[id];
    assert s.writers[id := w.(phase := GenRead(g))][id := w.(phase := Counted(g))]
        == s.writers[id := w.(phase := Counted(g))];
  }

  lemma RecheckedAlone(s: Volume, b: Volume, id: nat)
    requires Shape(s) && id in s.writers && b == Entered(s, id, Counted(s.wgen % 2)) && Shape(b)
    ensures WriteEnabled(b, id, Recheck) && ApplyWrite(b, id, Recheck) == Entered(s, id, Rechecked(s.wgen % 2))
  {
    var g, w := s.wgen % 2, s.writers[id];
    assert s.writers[id := w.(phase := Counted(g))][id := w.(phase := Rechecked(g))]
        == s.writers[id := w.(phase := Rechecked(g))];
  }

  /** A request that is turned away gives its count back. */
  lemma LeaveNoTrace(s: Volume, id: nat)
    requires id in s.writers && |s.count| == 2
    ensures
      var e := Entered(s, id, Rechecked(s.wgen % 2));
      AddCount(e.(writers := e.writers - {id}), s.wgen % 2, -1) == s.(writers := s.writers - {id})
    ensures
      var e := Entered(s, id, Rechecked(s.wgen % 2));
      SetWriter(e, id, e.writers[id].(phase := Admitted(s.wgen % 2))) == Entered(s, id, Admitted(s.wgen % 2))
  {
    var g, w := s.wgen % 2, s.writers[id];
    var e := Entered(s, id, Rechecked(g));
    assert e.writers - {id} == s.writers - {id};
    assert e.count[g := e.count[g] - 1] == s.count;
    assert e.writers[id := w.(phase := Admitted(g))] == s.writers[id := w.(phase := Admitted(g))];
  }

  /** The first j sectors of the chunk, as the survivor holds them. */
  ghost function Lane(s: Volume, j: nat): seq<Value>
    requires s.thread.Copying? && s.thread.srv < |s.media| && s.cursor + j <= |s.media[s.thread.srv]|
  {
    s.media[s.thread.srv][s.cursor..s.cursor + j]
  }

  /** The first k sectors of the chunk have reached the target, and nothing else moved. */
  ghost function Copied(s: Volume, k: nat): Volume
    requires s.thread.Copying? && s.thread.srv < |s.media| && s.cursor + k <= |s.media[s.thread.srv]|
    requires s.target < |s.media| && s.cursor + k <= |s.media[s.target]|
  {
    var t := s.media[s.target];
    s.(media := s.media[s.target := t[..s.cursor] + Lane(s, k) + t[s.cursor + k..]])
  }

  lemma CopiedNothing(s: Volume)
    requires s.thread.Copying? && s.thread.srv < |s.media| && s.cursor <= |s.media[s.thread.srv]|
    requires s.target < |s.media| && s.cursor <= |s.media[s.target]|
    ensures Copied(s, 0) == s
  {
    var t := s.media[s.target];
    assert t[..s.cursor] + Lane(s, 0) + t[s.cursor..] == t;
  }

  lemma CopiedOneMore(s: Volume, k: nat)
    requires s.thread.Copying? && s.thread.srv < |s.media| && s.cursor + k < |s.media[s.thread.srv]|
    requires s.target < |s.media| && s.cursor + k < |s.media[s.target]|
    ensures
      var c := Copied(s, k).media[s.target];
      |c| == |s.media[s.target]|
      && Copied(s, k + 1).media == Copied(s, k).media[s.target := c[s.cursor + k := s.media[s.thread.srv][s.cursor + k]]]
  {
    var t, c := s.media[s.target], Copied(s, k).media[s.target];
    assert Copied(s, k + 1).media[s.target] == c[s.cursor + k := s.media[s.thread.srv][s.cursor + k]];
  }

  lemma AssemblyIsInit(s: Volume, content: seq<Value>)
    requires s.geo.Sound() && |content| == s.geo.capacity && s.want == content
    requires s.media == seq(s.geo.members, (m: nat) => seq(s.geo.total, (p: nat) => Cell(s.geo, content, m, p)))
    requires s.present == seq(s.geo.members, _ => true) && s.st == seq(s.geo.members, _ => Live)
    requires s.live == s.wr == Upto(s.geo.members) && s.writers == map[] && s.count == [0, 0] && s.window == None
    requires s.thread == Idle && s.target == 0 && s.cursor == 0
    ensures Init(s)
  {
    var geo := s.geo;
    forall m, x | 0 <= m < geo.members && 0 <= x < geo.capacity && geo.col(x) == geo.colOf(m)
      ensures geo.at(x) < geo.total && s.media[m][geo.at(x)] == s.want[x]
    {
      assert geo.Holds(geo.logical(geo.colOf(m), geo.at(x)), geo.colOf(m), geo.at(x));
    }
  }

  lemma BucketOf(s: Volume, id: nat)
    requires Shape(s) && id in s.writers
    ensures var p := s.writers[id].phase;
      p.GenRead? || p.Counted? || p.Rechecked? || p.Admitted? ==> p.g < |s.count| == 2
  {
    assert WriterOk(s, s.writers[id]);
  }

  /** What member m holds at its sector p when the volume holds content. */
  function Cell(geo: Layout, content: seq<Value>, m: nat, p: nat): Value
    requires |content| == geo.capacity
  {
    var x := geo.logical(geo.colOf(m), p);
    if x < geo.capacity then content[x] else 0
  }

  lemma MarkNone(s: Volume)
    ensures MarkFailed(s, {}) == s
  {
    var a := MarkFailed(s, {});
    assert a.st == s.st && a.live == s.live && a.wr == s.wr;
  }

  lemma MarkOneMore(s: Volume, done: set<nat>, m: nat)
    ensures MarkFailed(MarkFailed(s, done), {m}) == MarkFailed(s, done + {m})
  {
    var a, b := MarkFailed(MarkFailed(s, done), {m}), MarkFailed(s, done + {m});
    assert a.st == b.st && a.live == b.live && a.wr == b.wr;
  }
}
