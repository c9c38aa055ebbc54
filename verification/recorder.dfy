/**
 The recording half of `PerformanceMonitor`: an append-only list of rows and a
 single `current` row that `recordAdd` creates and appends and that
 `recordUpdate` and `recordDelete` then fill in. The monitor is an immutable
 value here; each Java call is a transition from one value to the next.
 Clock readings and probe samples arrive as arguments.
 */
module Recorder {
  import opened Results

  /** The duration of one phase (whole milliseconds) and the CPU and free-memory samples taken right after it. */
  datatype Phase = Phase(ms: int, cpu: real, mem: real)

  /** A phase whose fields still hold Java's default value 0. */
  const Unset: Phase := Phase(0, 0.0, 0.0)

  /** One unit of work at one scale. */
  datatype Row = Row(scale: int, timestamp: int, add: Phase, update: Phase, delete: Phase)

  /**
   The recorder's state. `hasCurrent` says whether the Java field `current` is
   non-null; when it is, it refers to the last element of `rows`.
   */
  datatype Monitor = Monitor(rows: seq<Row>, hasCurrent: bool)

  /** A freshly constructed `PerformanceMonitor`. */
  const Fresh: Monitor := Monitor([], false)

  /** Why a recording call fails: `current` is still `null`. */
  datatype Fault = NullCurrent

  /** `current` is set exactly when a row has been appended; it is then the last row. */
  predicate Valid(m: Monitor) {
    m.hasCurrent <==> 0 < |m.rows|
  }

  function Current(m: Monitor): Row
    requires Valid(m) && m.hasCurrent
  {
    m.rows[|m.rows| - 1]
  }

  /**
   `recordAdd(scale, addMs)`: a new row stamped with `now`, holding the add
   phase, becomes the current row and is appended; every earlier row stays.
   */
  function RecordAdd(m: Monitor, scale: int, addMs: int, now: int, cpu: real, mem: real): (r: Monitor)
    ensures Valid(r) && r.hasCurrent
    ensures |r.rows| == |m.rows| + 1
    ensures r.rows[..|m.rows|] == m.rows
    ensures Current(r).scale == scale && Current(r).timestamp == now
    ensures Current(r).add == Phase(addMs, cpu, mem)
    ensures Current(r).update == Unset && Current(r).delete == Unset
  {
    Monitor(m.rows + [Row(scale, now, Phase(addMs, cpu, mem), Unset, Unset)], true)
  }

  /** Replaces the current row, which is the last one; fails when there is none. */
  function SetCurrent(m: Monitor, row: Row): (r: Result<Monitor, Fault>)
    requires Valid(m)
    ensures r.Err? <==> !m.hasCurrent
    ensures r.Ok? ==> Valid(r.value) && r.value.hasCurrent && |r.value.rows| == |m.rows|
    ensures r.Ok? ==> r.value.rows[..|m.rows| - 1] == m.rows[..|m.rows| - 1] && Current(r.value) == row
  {
    if !m.hasCurrent then Err(NullCurrent)
    else Ok(Monitor(m.rows[..|m.rows| - 1] + [row], true))
  }

  /**
   `recordUpdate(updateMs)`: overwrites the update phase of the current row.
   Fails before any `recordAdd`; never adds a row; touches no other field.
   */
  function RecordUpdate(m: Monitor, updateMs: int, cpu: real, mem: real): (r: Result<Monitor, Fault>)
    requires Valid(m)
    ensures r.Err? <==> !m.hasCurrent
    ensures r.Ok? ==> Valid(r.value) && |r.value.rows| == |m.rows|
    ensures r.Ok? ==> r.value.rows[..|m.rows| - 1] == m.rows[..|m.rows| - 1]
    ensures r.Ok? ==> Current(r.value) == Current(m).(update := Phase(updateMs, cpu, mem))
  {
    if !m.hasCurrent then Err(NullCurrent)
    else SetCurrent(m, Current(m).(update := Phase(updateMs, cpu, mem)))
  }

  /**
   `recordDelete(deleteMs)`: overwrites the delete phase of the current row.
   Fails before any `recordAdd`; never adds a row; touches no other field.
   */
  function RecordDelete(m: Monitor, deleteMs: int, cpu: real, mem: real): (r: Result<Monitor, Fault>)
    requires Valid(m)
    ensures r.Err? <==> !m.hasCurrent
    ensures r.Ok? ==> Valid(r.value) && |r.value.rows| == |m.rows|
    ensures r.Ok? ==> r.value.rows[..|m.rows| - 1] == m.rows[..|m.rows| - 1]
    ensures r.Ok? ==> Current(r.value) == Current(m).(delete := Phase(deleteMs, cpu, mem))
  {
    if !m.hasCurrent then Err(NullCurrent)
    else SetCurrent(m, Current(m).(delete := Phase(deleteMs, cpu, mem)))
  }

  /** On a fresh monitor, `recordUpdate` and `recordDelete` both fail: `current` is null. */
  lemma MisuseBeforeAdd(ms: int, cpu: real, mem: real)
    ensures RecordUpdate(Fresh, ms, cpu, mem) == Err(NullCurrent)
    ensures RecordDelete(Fresh, ms, cpu, mem) == Err(NullCurrent)
  {
  }

  /** Calling `recordUpdate` twice leaves the state the second call alone would: the last call wins. */
  lemma UpdateLastWins(m: Monitor, ms1: int, cpu1: real, mem1: real, ms2: int, cpu2: real, mem2: real)
    requires Valid(m) && m.hasCurrent
    ensures RecordUpdate(m, ms1, cpu1, mem1).Ok?
    ensures RecordUpdate(RecordUpdate(m, ms1, cpu1, mem1).value, ms2, cpu2, mem2) == RecordUpdate(m, ms2, cpu2, mem2)
  {
    var m1 := RecordUpdate(m, ms1, cpu1, mem1).value;
    assert m1.rows[..|m.rows| - 1] == m.rows[..|m.rows| - 1];
  }

  /** Calling `recordDelete` twice leaves the state the second call alone would: the last call wins. */
  lemma DeleteLastWins(m: Monitor, ms1: int, cpu1: real, mem1: real, ms2: int, cpu2: real, mem2: real)
    requires Valid(m) && m.hasCurrent
    ensures RecordDelete(m, ms1, cpu1, mem1).Ok?
    ensures RecordDelete(RecordDelete(m, ms1, cpu1, mem1).value, ms2, cpu2, mem2) == RecordDelete(m, ms2, cpu2, mem2)
  {
    var m1 := RecordDelete(m, ms1, cpu1, mem1).value;
    assert m1.rows[..|m.rows| - 1] == m.rows[..|m.rows| - 1];
  }

  /** Update and delete write disjoint fields, so their order does not matter. */
  lemma UpdateDeleteCommute(m: Monitor, ums: int, ucpu: real, umem: real, dms: int, dcpu: real, dmem: real)
    requires Valid(m) && m.hasCurrent
    ensures RecordUpdate(m, ums, ucpu, umem).Ok? && RecordDelete(m, dms, dcpu, dmem).Ok?
    ensures RecordDelete(RecordUpdate(m, ums, ucpu, umem).value, dms, dcpu, dmem)
         == RecordUpdate(RecordDelete(m, dms, dcpu, dmem).value, ums, ucpu, umem)
  {
    var a := RecordDelete(RecordUpdate(m, ums, ucpu, umem).value, dms, dcpu, dmem).value;
    var b := RecordUpdate(RecordDelete(m, dms, dcpu, dmem).value, ums, ucpu, umem).value;
    assert a.rows[..|m.rows| - 1] == m.rows[..|m.rows| - 1] == b.rows[..|m.rows| - 1];
    assert a.rows == a.rows[..|m.rows| - 1] + [Current(a)];
    assert b.rows == b.rows[..|m.rows| - 1] + [Current(b)];
  }

  // ---------- call sequences ----------

  /** One call on the monitor's recording interface, with the clock and probe values it observes. */
  datatype Call =
    | Add(scale: int, ms: int, now: int, cpu: real, mem: real)
    | Update(ms: int, cpu: real, mem: real)
    | Delete(ms: int, cpu: real, mem: real)

  function Apply(m: Monitor, c: Call): (r: Result<Monitor, Fault>)
    requires Valid(m)
    ensures r.Ok? ==> Valid(r.value)
  {
    match c
    case Add(scale, ms, now, cpu, mem) => Ok(RecordAdd(m, scale, ms, now, cpu, mem))
    case Update(ms, cpu, mem) => RecordUpdate(m, ms, cpu, mem)
    case Delete(ms, cpu, mem) => RecordDelete(m, ms, cpu, mem)
  }

  /** Performs the calls in order; the first failing call ends the run with its fault. */
  function Replay(m: Monitor, calls: seq<Call>): (r: Result<Monitor, Fault>)
    requires Valid(m)
    ensures r.Ok? ==> Valid(r.value)
    decreases |calls|
  {
    if |calls| == 0 then Ok(m)
    else
      match Apply(m, calls[0])
      case Err(e) => Err(e)
      case Ok(m') => Replay(m', calls[1..])
  }

  function CountAdds(calls: seq<Call>): nat {
    if |calls| == 0 then 0 else (if calls[0].Add? then 1 else 0) + CountAdds(calls[1..])
  }

  /** Only `recordAdd` grows the list: after any successful sequence of calls, exactly one row per add was appended. */
  lemma {:induction false} OnlyAddAppends(m: Monitor, calls: seq<Call>)
    requires Valid(m) && Replay(m, calls).Ok?
    ensures |Replay(m, calls).value.rows| == |m.rows| + CountAdds(calls)
    decreases |calls|
  {
    if 0 < |calls| {
      OnlyAddAppends(Apply(m, calls[0]).value, calls[1..]);
    }
  }

  /** One successful call keeps every row before the current one and never removes a row. */
  lemma ApplyKeepsPrefix(m: Monitor, c: Call)
    requires Valid(m) && Apply(m, c).Ok?
    ensures |m.rows| <= |Apply(m, c).value.rows|
    ensures 0 < |m.rows| ==> Apply(m, c).value.rows[..|m.rows| - 1] == m.rows[..|m.rows| - 1]
  {
    var r := Apply(m, c).value;
    if c.Add? && 0 < |m.rows| {
      assert r.rows[..|m.rows|] == m.rows;
      assert r.rows[..|m.rows| - 1] == r.rows[..|m.rows|][..|m.rows| - 1];
    }
  }

  /**
   Rows are never revisited: every row that was not the current one when the
   calls began is still in place, unchanged, after them.
   */
  lemma {:induction false} EarlierRowsStay(m: Monitor, calls: seq<Call>)
    requires Valid(m) && Replay(m, calls).Ok?
    ensures |m.rows| <= |Replay(m, calls).value.rows|
    ensures 0 < |m.rows| ==> Replay(m, calls).value.rows[..|m.rows| - 1] == m.rows[..|m.rows| - 1]
    decreases |calls|
  {
    if 0 < |calls| {
      var m' := Apply(m, calls[0]).value;
      var r := Replay(m, calls).value;
      assert r == Replay(m', calls[1..]).value;
      ApplyKeepsPrefix(m, calls[0]);
      EarlierRowsStay(m', calls[1..]);
      if 0 < |m.rows| {
        PrefixOfPrefix(r.rows, m'.rows, |m.rows| - 1, |m'.rows| - 1);
      }
    }
  }

  /** Two sequences that agree on a prefix agree on every shorter prefix. */
  lemma PrefixOfPrefix(a: seq<Row>, b: seq<Row>, n: nat, n': nat)
    requires n <= n' <= |a| && n' <= |b| && a[..n'] == b[..n']
    ensures a[..n] == b[..n]
  {
    assert a[..n] == a[..n'][..n];
    assert b[..n] == b[..n'][..n];
  }

  /** A sequence of calls that starts on a fresh monitor with an update or a delete fails. */
  lemma MisuseFailsReplay(calls: seq<Call>)
    requires 0 < |calls| && !calls[0].Add?
    ensures Replay(Fresh, calls) == Err(NullCurrent)
  {
  }
}
