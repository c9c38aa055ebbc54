/**
 The workload driver repeated in every scenario class: for each scale `s` of
 the schedule, `s` units of work, each timing an add, an update and a delete
 action and recording them on the monitor in that order; then one `writeCSV`.
 HTTP traffic is not modelled: each request is an event in a trace, and the
 ids the server answers with, the clock readings and the probe samples of the
 n-th unit of work come from the oracle `env(n)`.
 */
module Driver {
  import opened Results
  import opened Timer
  import opened Recorder
  import opened Csv
  import opened Schedule

  datatype Entity = Todo | Project | Category

  /** One request to the API. `Create` carries the id the server answered with. */
  datatype Request =
    | Create(kind: Entity, id: int)
    | Modify(kind: Entity, id: int)
    | Remove(kind: Entity, id: int)
    | Link(owner: Entity, ownerId: int, relation: string, targetId: int)
    | Unlink(owner: Entity, ownerId: int, relation: string, targetId: int)

  /**
   The three actions of a scenario: for `Basic`, create, update and delete one
   entity; for `Relation`, link an owner to a target through the relation,
   update the target, unlink them.
   */
  datatype Workload =
    | Basic(kind: Entity)
    | Relation(owner: Entity, relation: string, target: Entity)

  /** A scenario class: its workload and the file its metrics go to. */
  datatype Scenario = Scenario(workload: Workload, file: string)

  /** What one phase reads from the outside world: `System.nanoTime()` around its action, then the two probes. */
  datatype Reading = Reading(clock: Clock, cpu: real, mem: real)

  /** What the outside world contributes to one unit of work: the ids of its two creates, the wall clock, three phases. */
  datatype UnitReading = UnitReading(firstId: int, secondId: int, now: int, add: Reading, update: Reading, delete: Reading)

  /** One unit of work once its durations are measured: every phase as the monitor records it. */
  datatype UnitInput = UnitInput(firstId: int, secondId: int, now: int, add: Phase, update: Phase, delete: Phase)

  /** A phase's duration is what `measure` makes of its clock readings. */
  function Observe(r: Reading): Phase {
    Phase(Measure(r.clock), r.cpu, r.mem)
  }

  function ObserveUnit(r: UnitReading): UnitInput {
    UnitInput(r.firstId, r.secondId, r.now, Observe(r.add), Observe(r.update), Observe(r.delete))
  }

  /** The measured units of a run, from the readings of each. */
  function Observed(readings: nat -> UnitReading): nat -> UnitInput {
    (k: nat) => ObserveUnit(readings(k))
  }

  /** One step of a run: an API request (inside `measure` or not), a call on the monitor, or `writeCSV`. */
  datatype Event = Http(request: Request, timed: bool) | Record(call: Call) | Write(file: string)

  // ---------- one unit of work ----------

  function AddCall(scale: int, u: UnitInput): Call {
    Add(scale, u.add.ms, u.now, u.add.cpu, u.add.mem)
  }

  function UpdateCall(u: UnitInput): Call {
    Update(u.update.ms, u.update.cpu, u.update.mem)
  }

  function DeleteCall(u: UnitInput): Call {
    Delete(u.delete.ms, u.delete.cpu, u.delete.mem)
  }

  /**
   The requests of the add phase in program order. A basic scenario times one
   create and then issues a second, untimed create whose id the later phases
   use; a relation scenario creates owner and target untimed and times the link.
   */
  function AddRequests(w: Workload, u: UnitInput): seq<Event> {
    match w
    case Basic(k) => [Http(Create(k, u.firstId), true), Http(Create(k, u.secondId), false)]
    case Relation(o, rel, t) =>
      [Http(Create(o, u.firstId), false), Http(Create(t, u.secondId), false),
       Http(Link(o, u.firstId, rel, u.secondId), true)]
  }

  /** The timed request of the update phase: it always targets the entity created second. */
  function UpdateRequest(w: Workload, u: UnitInput): Request {
    match w
    case Basic(k) => Modify(k, u.secondId)
    case Relation(_, _, t) => Modify(t, u.secondId)
  }

  /** The timed request of the delete phase. */
  function DeleteRequest(w: Workload, u: UnitInput): Request {
    match w
    case Basic(k) => Remove(k, u.secondId)
    case Relation(o, rel, _) => Unlink(o, u.firstId, rel, u.secondId)
  }

  /** Everything one iteration of the inner loop does, in program order. */
  function UnitEvents(w: Workload, scale: int, u: UnitInput): seq<Event> {
    AddRequests(w, u) + [Record(AddCall(scale, u)),
                         Http(UpdateRequest(w, u), true), Record(UpdateCall(u)),
                         Http(DeleteRequest(w, u), true), Record(DeleteCall(u))]
  }

  /** The row one unit of work leaves behind once all three phases are recorded. */
  function UnitRow(scale: int, u: UnitInput): Row {
    Row(scale, u.now, u.add, u.update, u.delete)
  }

  // ---------- a whole run, as a reference definition ----------

  /** What one unit of work does, given its scale and what the outside world contributes. */
  type UnitScript = (int, UnitInput) -> seq<Event>

  /** The unit script of a workload's inner loop body. */
  function Script(w: Workload): UnitScript {
    (scale, u) => UnitEvents(w, scale, u)
  }

  /** The first `count` units at one scale, numbered from `base`. */
  function ScaleEvents(unit: UnitScript, scale: int, count: nat, base: nat, env: nat -> UnitInput): seq<Event> {
    if count == 0 then []
    else ScaleEvents(unit, scale, count - 1, base, env) + unit(scale, env(base + count - 1))
  }

  /** All units of every scale of the schedule, in order. */
  function ScheduleEvents(unit: UnitScript, schedule: seq<int>, env: nat -> UnitInput): seq<Event> {
    if |schedule| == 0 then []
    else
      var front := schedule[..|schedule| - 1];
      var s := schedule[|schedule| - 1];
      ScheduleEvents(unit, front, env) + ScaleEvents(unit, s, Reps(s), Total(front), env)
  }

  /** A complete run of a scenario: every unit of work, then `writeCSV` once. */
  function RunEvents(scn: Scenario, schedule: seq<int>, env: nat -> UnitInput): seq<Event> {
    ScheduleEvents(Script(scn.workload), schedule, env) + [Write(scn.file)]
  }

  /** The rows a run should leave: unit `k` carries the `k`-th tag of the schedule and its own measurements. */
  function Rows(schedule: seq<int>, env: nat -> UnitInput): (rows: seq<Row>)
    ensures |rows| == Total(schedule)
  {
    var tags := Tags(schedule);
    seq(|tags|, k requires 0 <= k < |tags| => UnitRow(tags[k], env(k)))
  }

  function ScaleRows(scale: int, count: nat, base: nat, env: nat -> UnitInput): (rows: seq<Row>)
    ensures |rows| == count
  {
    seq(count, i requires 0 <= i < count => UnitRow(scale, env(base + i)))
  }

  /** The calls a trace makes on the monitor, in order. */
  function Calls(events: seq<Event>): seq<Call> {
    if |events| == 0 then []
    else (if events[0].Record? then [events[0].call] else []) + Calls(events[1..])
  }

  // ---------- the driver loop ----------

  /**
   `xxxPerformance()`: the nested loops over the schedule, reading the clocks,
   ids and probes of the `k`-th unit of work from `readings(k)`. Returns the
   monitor after the last unit, the trace of everything the loops did, and the
   lines `writeCSV` prints.
   */
  method Run(scn: Scenario, schedule: seq<int>, readings: nat -> UnitReading)
    returns (monitor: Monitor, events: seq<Event>, csv: seq<string>)
    ensures events == RunEvents(scn, schedule, Observed(readings))
    ensures Valid(monitor) && monitor.rows == Rows(schedule, Observed(readings))
    ensures Replay(Fresh, Calls(events)) == Ok(monitor)
    ensures csv == CsvLines(monitor.rows)
  {
    var w := scn.workload;
    var unit := Script(w);
    var env := Observed(readings);
    monitor := Fresh;
    events := [];
    var k: nat := 0;
    var j := 0;
    while j < |schedule|
      invariant 0 <= j <= |schedule|
      invariant k == Total(schedule[..j])
      invariant events == ScheduleEvents(unit, schedule[..j], env)
      invariant monitor == Monitor(Rows(schedule[..j], env), 0 < k)
    {
      var scale := schedule[j];
      var more;
      monitor, more := Scale(w, scale, k, readings, monitor);
      events := events + more;
      assert schedule[..j + 1][..j] == schedule[..j];
      assert schedule[..j + 1][j] == scale;
      RowsStep(schedule[..j + 1], env);
      k := k + Reps(scale);
      j := j + 1;
    }
    assert schedule[..j] == schedule;
    events := events + [Write(scn.file)];
    RunReplay(scn, schedule, env);
    csv := CsvLines(monitor.rows);
  }

  /** The inner loop: `scale` units of work at one scale, the first of them the `base`-th of the run. */
  method Scale(w: Workload, scale: int, base: nat, readings: nat -> UnitReading, m: Monitor)
    returns (monitor: Monitor, events: seq<Event>)
    requires Valid(m)
    ensures events == ScaleEvents(Script(w), scale, Reps(scale), base, Observed(readings))
    ensures monitor == Monitor(m.rows + ScaleRows(scale, Reps(scale), base, Observed(readings)),
                               m.hasCurrent || 0 < Reps(scale))
  {
    var env := Observed(readings);
    monitor := m;
    events := [];
    var i := 0;
    while i < scale
      invariant 0 <= i <= Reps(scale)
      invariant events == ScaleEvents(Script(w), scale, i, base, env)
      invariant monitor == Monitor(m.rows + ScaleRows(scale, i, base, env), m.hasCurrent || 0 < i)
    {
      var unit;
      monitor, unit := Unit(w, scale, readings(base + i), monitor);
      events := events + unit;
      ScaleStep(w, scale, i, base, env, m.rows);
      i := i + 1;
    }
    if scale <= 0 {
      assert m.rows + ScaleRows(scale, 0, base, env) == m.rows;
    }
  }

  /** One iteration of the inner loop: the three timed phases, each recorded right after its action. */
  method Unit(w: Workload, scale: int, r: UnitReading, m: Monitor) returns (monitor: Monitor, events: seq<Event>)
    requires Valid(m)
    ensures events == UnitEvents(w, scale, ObserveUnit(r))
    ensures monitor == Monitor(m.rows + [UnitRow(scale, ObserveUnit(r))], true)
  {
    var u := ObserveUnit(r);
    events := AddRequests(w, u);
    var addMs := Measure(r.add.clock);
    monitor := RecordAdd(m, scale, addMs, r.now, r.add.cpu, r.add.mem);
    events := events + [Record(AddCall(scale, u))];
    events := events + [Http(UpdateRequest(w, u), true)];
    var updateMs := Measure(r.update.clock);
    var updated := RecordUpdate(monitor, updateMs, r.update.cpu, r.update.mem);
    monitor := updated.value;
    events := events + [Record(UpdateCall(u))];
    events := events + [Http(DeleteRequest(w, u), true)];
    var deleteMs := Measure(r.delete.clock);
    var deleted := RecordDelete(monitor, deleteMs, r.delete.cpu, r.delete.mem);
    monitor := deleted.value;
    events := events + [Record(DeleteCall(u))];
    assert monitor.rows[..|m.rows|] == m.rows;
    assert monitor.rows == m.rows + [UnitRow(scale, u)];
  }

  // ---------- lemmas about the reference ----------

  lemma {:induction false} CallsAppend(a: seq<Event>, b: seq<Event>)
    ensures Calls(a + b) == Calls(a) + Calls(b)
    decreases |a|
  {
    if 0 < |a| {
      assert (a + b)[0] == a[0];
      assert (a + b)[1..] == a[1..] + b;
      CallsAppend(a[1..], b);
    } else {
      assert a + b == b;
    }
  }

  lemma {:induction false} ReplayAppend(m: Monitor, a: seq<Call>, b: seq<Call>)
    requires Valid(m)
    ensures Replay(m, a + b) == match Replay(m, a) case Err(e) => Err(e) case Ok(m') => Replay(m', b)
    decreases |a|
  {
    if 0 < |a| {
      assert (a + b)[0] == a[0];
      assert (a + b)[1..] == a[1..] + b;
      match Apply(m, a[0])
      case Err(_) =>
      case Ok(m') => ReplayAppend(m', a[1..], b);
    } else {
      assert a + b == b;
    }
  }

  lemma CallsCons(e: Event, rest: seq<Event>)
    ensures Calls([e] + rest) == (if e.Record? then [e.call] else []) + Calls(rest)
  {
    assert ([e] + rest)[1..] == rest;
  }

  lemma {:induction false} CallsOfRequests(events: seq<Event>)
    requires forall i :: 0 <= i < |events| ==> events[i].Http?
    ensures Calls(events) == []
    decreases |events|
  {
    if 0 < |events| {
      CallsOfRequests(events[1..]);
    }
  }

  /** Each unit of work calls `recordAdd`, `recordUpdate` and `recordDelete` once each, in that order. */
  lemma UnitCalls(w: Workload, scale: int, u: UnitInput)
    ensures Calls(UnitEvents(w, scale, u)) == [AddCall(scale, u), UpdateCall(u), DeleteCall(u)]
  {
    var e5 := [Record(DeleteCall(u))];
    var e4 := [Http(DeleteRequest(w, u), true)] + e5;
    var e3 := [Record(UpdateCall(u))] + e4;
    var e2 := [Http(UpdateRequest(w, u), true)] + e3;
    var e1 := [Record(AddCall(scale, u))] + e2;
    assert Calls(e1) == [AddCall(scale, u), UpdateCall(u), DeleteCall(u)] by {
      CallsCons(Record(DeleteCall(u)), []);
      assert [Record(DeleteCall(u))] + [] == e5;
      CallsCons(Http(DeleteRequest(w, u), true), e5);
      CallsCons(Record(UpdateCall(u)), e4);
      CallsCons(Http(UpdateRequest(w, u), true), e3);
      CallsCons(Record(AddCall(scale, u)), e2);
    }
    assert UnitEvents(w, scale, u) == AddRequests(w, u) + e1;
    CallsOfRequests(AddRequests(w, u));
    CallsAppend(AddRequests(w, u), e1);
  }

  /** Recording one unit of work appends exactly the row that unit measured. */
  lemma UnitReplay(m: Monitor, w: Workload, scale: int, u: UnitInput)
    requires Valid(m)
    ensures Replay(m, Calls(UnitEvents(w, scale, u))) == Ok(Monitor(m.rows + [UnitRow(scale, u)], true))
  {
    UnitCalls(w, scale, u);
    PhasesReplay(m, scale, u);
  }

  lemma PhasesReplay(m: Monitor, scale: int, u: UnitInput)
    requires Valid(m)
    ensures Replay(m, [AddCall(scale, u), UpdateCall(u), DeleteCall(u)]) == Ok(Monitor(m.rows + [UnitRow(scale, u)], true))
  {
    var m1 := RecordAdd(m, scale, u.add.ms, u.now, u.add.cpu, u.add.mem);
    var m2 := RecordUpdate(m1, u.update.ms, u.update.cpu, u.update.mem).value;
    var m3 := RecordDelete(m2, u.delete.ms, u.delete.cpu, u.delete.mem).value;
    assert m3.rows[..|m.rows|] == m.rows;
    assert m3.rows == m.rows + [UnitRow(scale, u)];
    assert Replay(m3, []) == Ok(m3);
    assert [DeleteCall(u)][1..] == [];
    assert Replay(m2, [DeleteCall(u)]) == Ok(m3);
    assert [UpdateCall(u), DeleteCall(u)][1..] == [DeleteCall(u)];
    assert Replay(m1, [UpdateCall(u), DeleteCall(u)]) == Ok(m3);
    assert [AddCall(scale, u), UpdateCall(u), DeleteCall(u)][1..] == [UpdateCall(u), DeleteCall(u)];
  }

  /** Every unit the script produces makes exactly the add, update and delete calls of its unit input. */
  ghost predicate RecordsEachUnit(unit: UnitScript) {
    forall scale, u :: Calls(unit(scale, u)) == [AddCall(scale, u), UpdateCall(u), DeleteCall(u)]
  }

  lemma ScriptRecordsEachUnit(w: Workload)
    ensures RecordsEachUnit(Script(w))
  {
    forall scale, u ensures Calls(Script(w)(scale, u)) == [AddCall(scale, u), UpdateCall(u), DeleteCall(u)] {
      UnitCalls(w, scale, u);
    }
  }

  lemma {:induction false} ScaleReplay(m: Monitor, unit: UnitScript, scale: int, count: nat, base: nat,
                                       env: nat -> UnitInput)
    requires Valid(m) && RecordsEachUnit(unit)
    ensures Replay(m, Calls(ScaleEvents(unit, scale, count, base, env)))
         == Ok(Monitor(m.rows + ScaleRows(scale, count, base, env), m.hasCurrent || 0 < count))
    decreases count
  {
    if 0 < count {
      var u := env(base + count - 1);
      var prev := ScaleEvents(unit, scale, count - 1, base, env);
      var triple := [AddCall(scale, u), UpdateCall(u), DeleteCall(u)];
      var mid := Monitor(m.rows + ScaleRows(scale, count - 1, base, env), m.hasCurrent || 0 < count - 1);
      assert Calls(ScaleEvents(unit, scale, count, base, env)) == Calls(prev) + triple by {
        CallsAppend(prev, unit(scale, u));
      }
      ScaleReplay(m, unit, scale, count - 1, base, env);
      ReplayThen(m, Calls(prev), triple, mid);
      PhasesReplay(mid, scale, u);
      assert mid.rows + [UnitRow(scale, u)] == m.rows + ScaleRows(scale, count, base, env) by {
        ScaleRowsStep(scale, count, base, env);
        AppendAssoc(m.rows, ScaleRows(scale, count - 1, base, env), [UnitRow(scale, u)]);
      }
    } else {
      assert m.rows + ScaleRows(scale, count, base, env) == m.rows;
    }
  }

  lemma AppendAssoc<T>(a: seq<T>, b: seq<T>, c: seq<T>)
    ensures (a + b) + c == a + (b + c)
  {
  }

  /** Once a prefix of calls has succeeded, the rest of the calls continue from where it left off. */
  lemma ReplayThen(m: Monitor, a: seq<Call>, b: seq<Call>, mid: Monitor)
    requires Valid(m) && Replay(m, a) == Ok(mid)
    ensures Valid(mid) && Replay(m, a + b) == Replay(mid, b)
  {
    ReplayAppend(m, a, b);
  }

  lemma ScaleRowsStep(scale: int, count: nat, base: nat, env: nat -> UnitInput)
    requires 0 < count
    ensures ScaleRows(scale, count, base, env)
            == ScaleRows(scale, count - 1, base, env) + [UnitRow(scale, env(base + count - 1))]
  {
    var lhs := ScaleRows(scale, count, base, env);
    var rhs := ScaleRows(scale, count - 1, base, env) + [UnitRow(scale, env(base + count - 1))];
    forall i | 0 <= i < count
      ensures lhs[i] == rhs[i]
    {
    }
  }

  /** One more unit extends both the trace and the rows of a scale by that unit's share. */
  lemma ScaleStep(w: Workload, scale: int, i: nat, base: nat, env: nat -> UnitInput, rows: seq<Row>)
    ensures ScaleEvents(Script(w), scale, i + 1, base, env)
            == ScaleEvents(Script(w), scale, i, base, env) + UnitEvents(w, scale, env(base + i))
    ensures rows + ScaleRows(scale, i + 1, base, env)
            == rows + ScaleRows(scale, i, base, env) + [UnitRow(scale, env(base + i))]
  {
    ScaleRowsStep(scale, i + 1, base, env);
  }

  /** The rows of a schedule are those of its prefix followed by those of its last scale. */
  lemma RowsStep(schedule: seq<int>, env: nat -> UnitInput)
    requires 0 < |schedule|
    ensures var front := schedule[..|schedule| - 1];
            var s := schedule[|schedule| - 1];
            Rows(schedule, env) == Rows(front, env) + ScaleRows(s, Reps(s), Total(front), env)
  {
    var front := schedule[..|schedule| - 1];
    var s := schedule[|schedule| - 1];
    var tags := Tags(schedule);
    assert tags == Tags(front) + Repeat(s, Reps(s));
    var lhs := Rows(schedule, env);
    var rhs := Rows(front, env) + ScaleRows(s, Reps(s), Total(front), env);
    forall k | 0 <= k < |lhs|
      ensures lhs[k] == rhs[k]
    {
      if k < Total(front) {
        assert tags[k] == Tags(front)[k];
      } else {
        assert tags[k] == Repeat(s, Reps(s))[k - Total(front)];
      }
    }
  }

  lemma {:induction false} ScheduleReplay(unit: UnitScript, schedule: seq<int>, env: nat -> UnitInput)
    requires RecordsEachUnit(unit)
    ensures Replay(Fresh, Calls(ScheduleEvents(unit, schedule, env)))
            == Ok(Monitor(Rows(schedule, env), 0 < Total(schedule)))
    decreases |schedule|
  {
    if 0 < |schedule| {
      var front := schedule[..|schedule| - 1];
      var s := schedule[|schedule| - 1];
      var prev := ScheduleEvents(unit, front, env);
      var more := ScaleEvents(unit, s, Reps(s), Total(front), env);
      var mid := Monitor(Rows(front, env), 0 < Total(front));
      ScheduleReplay(unit, front, env);
      CallsAppend(prev, more);
      ReplayThen(Fresh, Calls(prev), Calls(more), mid);
      ScaleReplay(mid, unit, s, Reps(s), Total(front), env);
      RowsStep(schedule, env);
    }
  }

  /**
   Replaying a complete run on a fresh monitor succeeds (no update or delete
   ever meets a null current row) and leaves exactly the reference rows.
   */
  lemma RunReplay(scn: Scenario, schedule: seq<int>, env: nat -> UnitInput)
    ensures Replay(Fresh, Calls(RunEvents(scn, schedule, env))) == Ok(Monitor(Rows(schedule, env), 0 < Total(schedule)))
  {
    ScriptRecordsEachUnit(scn.workload);
    ScheduleReplay(Script(scn.workload), schedule, env);
    var body := ScheduleEvents(Script(scn.workload), schedule, env);
    CallsAppend(body, [Write(scn.file)]);
    CallsCons(Write(scn.file), []);
    assert [Write(scn.file)] + [] == [Write(scn.file)];
    assert Calls(body) + [] == Calls(body);
  }
}
