/** What status a fanned-out request of src/rc_nvme.c ends with, from the members it
  * was submitted to and the members that reported an error. */
module FinishStatus {

  datatype Op = Read | Write | Discard | Flush
  datatype Level = Raid0 | Raid1 | Raid10(cols: nat) | Other
  datatype Status = Ok | IoErr | Timeout

  /** The copies of column c. */
  function Column(c: nat): set<nat> { {2 * c, 2 * c + 1} }

  // ---------- the promise, in terms of who really succeeded ----------

  /** Some redundancy group the request was submitted to has no copy that succeeded. */
  predicate GroupLost(level: Level, mask: set<nat>, success: set<nat>) {
    match level
    case Raid1 => mask * success == {}
    case Raid10(cols) => exists c :: 0 <= c < cols && ColumnLost(c, mask, success)
    case _ => false
  }

  predicate ColumnLost(c: nat, mask: set<nat>, success: set<nat>) {
    mask * Column(c) != {} && mask * Column(c) * success == {}
  }

  predicate Mirrored(level: Level) { level.Raid1? || level.Raid10? }

  /** Everything that was asked for happened: on a mirrored level a WRITE, DISCARD or
    * FLUSH needs one surviving copy a group, anything else needs every member. */
  predicate Durable(level: Level, op: Op, mask: set<nat>, success: set<nat>) {
    if Mirrored(level) && op != Read then !GroupLost(level, mask, success)
    else mask <= success
  }

  // ---------- the code ----------

  /** rc_volume_finish_status: the status, and the members marked failed. */
  method Finish(level: Level, op: Op, mask: set<nat>, errs: set<nat>, sc: bool) returns (st: Status, marked: set<nat>)
    ensures (st, marked) == Finished(level, op, mask, errs, sc)
  {
    if !sc { return Ok, {}; }
    if (!level.Raid1? && !level.Raid10?) || mask == {} || errs == {} { return IoErr, {}; }
    if op == Read { return IoErr, errs; }
    if level.Raid10? {
      var c := 0;
      while c < level.cols
        invariant c <= level.cols
        invariant forall k :: 0 <= k < c ==> !AllErred(k, mask, errs)
      {
        var subm := mask * {2 * c, 2 * c + 1};
        if subm != {} && errs * subm == subm {
          assert AllErred(c, mask, errs);
          return IoErr, errs;
        }
        c := c + 1;
      }
    } else if errs * mask == mask {
      return IoErr, errs;
    }
    return Ok, errs;
  }

  predicate AllErred(c: nat, mask: set<nat>, errs: set<nat>) {
    mask * Column(c) != {} && errs * (mask * Column(c)) == mask * Column(c)
  }

  function Finished(level: Level, op: Op, mask: set<nat>, errs: set<nat>, sc: bool): (Status, set<nat>) {
    if !sc then (Ok, {})
    else if (!level.Raid1? && !level.Raid10?) || mask == {} || errs == {} then (IoErr, {})
    else if op == Read then (IoErr, errs)
    else if level.Raid10? && exists c :: 0 <= c < level.cols && AllErred(c, mask, errs) then (IoErr, errs)
    else if level.Raid1? && errs * mask == mask then (IoErr, errs)
    else (Ok, errs)
  }

  lemma NoneLeft(a: set<nat>, success: set<nat>)
    ensures a - success == a <==> a * success == {}
  {
    if a * success != {} {
      var m :| m in a * success;
      assert m in a && m !in a - success;
    } else {
      forall m | m in a ensures m in a - success {
        assert m !in a * success;
      }
    }
  }

  lemma ErredIsLost(c: nat, mask: set<nat>, success: set<nat>)
    requires success <= mask
    ensures AllErred(c, mask, mask - success) <==> ColumnLost(c, mask, success)
  {
    var subm := mask * Column(c);
    assert (mask - success) * subm == subm - success;
    NoneLeft(subm, success);
  }

  /** Once every member's outcome is in, the request ends OK exactly when what it asked
    * for is durable.  Whatever the status, on a mirrored level exactly the members that
    * did not do their part are marked failed, and on any other level nobody is. */
  lemma OkIffDurable(level: Level, op: Op, mask: set<nat>, success: set<nat>)
    requires success <= mask && mask != {}
    ensures
      var (st, marked) := Finished(level, op, mask, mask - success, mask != success);
      && st != Timeout
      && (st == Ok <==> Durable(level, op, mask, success))
      && marked == (if Mirrored(level) then mask - success else {})
  {
    var errs := mask - success;
    if level.Raid10? {
      forall c | 0 <= c < level.cols ensures AllErred(c, mask, errs) <==> ColumnLost(c, mask, success) {
        ErredIsLost(c, mask, success);
      }
    }
    if mask == success {
      assert errs == {};
      if level.Raid10? {
        forall c | 0 <= c < level.cols ensures !ColumnLost(c, mask, success) {
          assert mask * Column(c) * success == mask * Column(c);
        }
      }
      assert mask * success == mask;
    } else {
      var m :| m in mask && m !in success;
      assert m in errs;
      assert errs * mask == errs;
      NoneLeft(mask, success);
    }
  }
}
