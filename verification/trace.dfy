/**
 Views of a run's trace: the calls it makes on the monitor, the API requests
 it sends, and which of those are timed. The properties every scenario class
 shares are stated here over the reference definition of a run.
 */
module Trace {
  import opened Recorder
  import opened Schedule
  import opened Driver

  /** All API requests of a trace, in order. */
  function Requests(events: seq<Event>): seq<Request> {
    if |events| == 0 then []
    else (if events[0].Http? then [events[0].request] else []) + Requests(events[1..])
  }

  /** The requests of a trace that run inside `measure`, in order. */
  function Timed(events: seq<Event>): seq<Request> {
    if |events| == 0 then []
    else (if events[0].Http? && events[0].timed then [events[0].request] else []) + Timed(events[1..])
  }

  /** The units of work for a list of scale tags, numbered from `base`. */
  function Units(unit: UnitScript, tags: seq<int>, base: nat, env: nat -> UnitInput): seq<Event> {
    if |tags| == 0 then []
    else Units(unit, tags[..|tags| - 1], base, env) + unit(tags[|tags| - 1], env(base + |tags| - 1))
  }

  /** The monitor calls `Units` should make: add, update, delete for each unit in turn. */
  function Phases(tags: seq<int>, base: nat, env: nat -> UnitInput): (cs: seq<Call>)
    ensures |cs| == 3 * |tags|
  {
    if |tags| == 0 then []
    else
      var u := env(base + |tags| - 1);
      Phases(tags[..|tags| - 1], base, env) + [AddCall(tags[|tags| - 1], u), UpdateCall(u), DeleteCall(u)]
  }

  // ---------- one event at a time ----------

  lemma ViewsCons(e: Event, rest: seq<Event>)
    ensures Calls([e] + rest) == (if e.Record? then [e.call] else []) + Calls(rest)
    ensures Requests([e] + rest) == (if e.Http? then [e.request] else []) + Requests(rest)
    ensures Timed([e] + rest) == (if e.Http? && e.timed then [e.request] else []) + Timed(rest)
  {
    assert ([e] + rest)[1..] == rest;
  }

  lemma {:induction false} ViewsAppend(a: seq<Event>, b: seq<Event>)
    ensures Calls(a + b) == Calls(a) + Calls(b)
    ensures Requests(a + b) == Requests(a) + Requests(b)
    ensures Timed(a + b) == Timed(a) + Timed(b)
    decreases |a|
  {
    if 0 < |a| {
      assert a + b == [a[0]] + (a[1..] + b);
      ViewsCons(a[0], a[1..] + b);
      ViewsCons(a[0], a[1..]);
      assert [a[0]] + a[1..] == a;
      ViewsAppend(a[1..], b);
    } else {
      assert a + b == b;
    }
  }

  /** The three recorded phases that close every unit of work, with the update and delete actions timed. */
  function Closing(w: Workload, scale: int, u: UnitInput): seq<Event> {
    [Record(AddCall(scale, u)),
     Http(UpdateRequest(w, u), true), Record(UpdateCall(u)),
     Http(DeleteRequest(w, u), true), Record(DeleteCall(u))]
  }

  lemma ClosingViews(w: Workload, scale: int, u: UnitInput)
    ensures Calls(Closing(w, scale, u)) == [AddCall(scale, u), UpdateCall(u), DeleteCall(u)]
    ensures Requests(Closing(w, scale, u)) == [UpdateRequest(w, u), DeleteRequest(w, u)]
    ensures Timed(Closing(w, scale, u)) == [UpdateRequest(w, u), DeleteRequest(w, u)]
  {
    var c := Closing(w, scale, u);
    var e4 := c[1..];
    var e3 := e4[1..];
    var e2 := e3[1..];
    var e1 := e2[1..];
    assert c == [c[0]] + e4 && e4 == [e4[0]] + e3 && e3 == [e3[0]] + e2 && e2 == [e2[0]] + e1 && e1 == [e1[0]] + [];
    ViewsCons(e1[0], []);
    ViewsCons(e2[0], e1);
    ViewsCons(e3[0], e2);
    ViewsCons(e4[0], e3);
    ViewsCons(c[0], e4);
  }

  /** The add phase sends requests only; which of them are timed depends on the workload. */
  lemma SetupViews(w: Workload, u: UnitInput)
    ensures Calls(AddRequests(w, u)) == []
    ensures w.Basic? ==> Requests(AddRequests(w, u)) == [Create(w.kind, u.firstId), Create(w.kind, u.secondId)]
    ensures w.Basic? ==> Timed(AddRequests(w, u)) == [Create(w.kind, u.firstId)]
    ensures w.Relation? ==>
              Requests(AddRequests(w, u))
              == [Create(w.owner, u.firstId), Create(w.target, u.secondId),
                  Link(w.owner, u.firstId, w.relation, u.secondId)]
    ensures w.Relation? ==> Timed(AddRequests(w, u)) == [Link(w.owner, u.firstId, w.relation, u.secondId)]
  {
    var a := AddRequests(w, u);
    if w.Basic? {
      assert a == [a[0]] + ([a[1]] + []);
      ViewsCons(a[0], [a[1]] + []);
      ViewsCons(a[1], []);
    } else {
      assert a == [a[0]] + ([a[1]] + ([a[2]] + []));
      ViewsCons(a[0], [a[1]] + ([a[2]] + []));
      ViewsCons(a[1], [a[2]] + []);
      ViewsCons(a[2], []);
    }
  }

  /** The request, monitor-call and timing views of one unit of work, whatever the workload. */
  lemma UnitViews(w: Workload, scale: int, u: UnitInput)
    ensures Calls(UnitEvents(w, scale, u)) == [AddCall(scale, u), UpdateCall(u), DeleteCall(u)]
    ensures Requests(UnitEvents(w, scale, u))
         == Requests(AddRequests(w, u)) + [UpdateRequest(w, u), DeleteRequest(w, u)]
    ensures Timed(UnitEvents(w, scale, u))
         == Timed(AddRequests(w, u)) + [UpdateRequest(w, u), DeleteRequest(w, u)]
  {
    ClosingViews(w, scale, u);
    SetupViews(w, u);
    ViewsAppend(AddRequests(w, u), Closing(w, scale, u));
    assert UnitEvents(w, scale, u) == AddRequests(w, u) + Closing(w, scale, u);
  }

  // ---------- a run is its units of work, one per tag ----------

  lemma {:induction false} UnitsAppend(unit: UnitScript, t1: seq<int>, t2: seq<int>, base: nat, env: nat -> UnitInput)
    ensures Units(unit, t1 + t2, base, env) == Units(unit, t1, base, env) + Units(unit, t2, base + |t1|, env)
    decreases |t2|
  {
    if |t2| == 0 {
      assert t1 + t2 == t1;
    } else {
      var front := t2[..|t2| - 1];
      var x := unit(t2[|t2| - 1], env(base + |t1| + |t2| - 1));
      assert Units(unit, t1 + t2, base, env) == Units(unit, t1 + front, base, env) + x by {
        assert (t1 + t2)[..|t1 + t2| - 1] == t1 + front;
        assert (t1 + t2)[|t1 + t2| - 1] == t2[|t2| - 1];
      }
      assert Units(unit, t1 + front, base, env) == Units(unit, t1, base, env) + Units(unit, front, base + |t1|, env) by {
        UnitsAppend(unit, t1, front, base, env);
      }
      assert Units(unit, t2, base + |t1|, env) == Units(unit, front, base + |t1|, env) + x;
    }
  }

  /** One more tag adds one more unit of work, numbered after the others. */
  lemma UnitsSnoc(unit: UnitScript, tags: seq<int>, v: int, base: nat, env: nat -> UnitInput)
    ensures Units(unit, tags + [v], base, env) == Units(unit, tags, base, env) + unit(v, env(base + |tags|))
  {
    assert (tags + [v])[..|tags|] == tags;
  }

  lemma {:induction false} ScaleUnits(unit: UnitScript, scale: int, count: nat, base: nat, env: nat -> UnitInput)
    ensures ScaleEvents(unit, scale, count, base, env) == Units(unit, Repeat(scale, count), base, env)
    decreases count
  {
    if 0 < count {
      ScaleUnits(unit, scale, count - 1, base, env);
      assert Repeat(scale, count) == Repeat(scale, count - 1) + [scale];
      UnitsSnoc(unit, Repeat(scale, count - 1), scale, base, env);
    }
  }

  /** The trace of a schedule is one unit of work per tag of the schedule, in tag order. */
  lemma {:induction false} ScheduleUnits(unit: UnitScript, schedule: seq<int>, env: nat -> UnitInput)
    ensures ScheduleEvents(unit, schedule, env) == Units(unit, Tags(schedule), 0, env)
    decreases |schedule|
  {
    if 0 < |schedule| {
      var front := schedule[..|schedule| - 1];
      var s := schedule[|schedule| - 1];
      var tf, r := Tags(front), Repeat(s, Reps(s));
      var more := ScaleEvents(unit, s, Reps(s), Total(front), env);
      ScheduleUnits(unit, front, env);
      ScaleUnits(unit, s, Reps(s), Total(front), env);
      UnitsAppend(unit, tf, r, 0, env);
      assert Tags(schedule) == tf + r;
      calc {
        ScheduleEvents(unit, schedule, env);
        ScheduleEvents(unit, front, env) + more;
        Units(unit, tf, 0, env) + Units(unit, r, |tf|, env);
        Units(unit, tf + r, 0, env);
      }
    }
  }

  lemma RunViews(scn: Scenario, schedule: seq<int>, env: nat -> UnitInput)
    ensures Calls(RunEvents(scn, schedule, env)) == Calls(Units(Script(scn.workload), Tags(schedule), 0, env))
    ensures Requests(RunEvents(scn, schedule, env)) == Requests(Units(Script(scn.workload), Tags(schedule), 0, env))
  {
    var body := ScheduleEvents(Script(scn.workload), schedule, env);
    ScheduleUnits(Script(scn.workload), schedule, env);
    ViewsAppend(body, [Write(scn.file)]);
    ViewsCons(Write(scn.file), []);
    assert [Write(scn.file)] + [] == [Write(scn.file)];
    assert Calls(body) + [] == Calls(body);
    assert Requests(body) + [] == Requests(body);
  }

  // ---------- add, update, delete: once each per unit, in order ----------

  lemma {:induction false} UnitsCalls(w: Workload, tags: seq<int>, base: nat, env: nat -> UnitInput)
    ensures Calls(Units(Script(w), tags, base, env)) == Phases(tags, base, env)
    decreases |tags|
  {
    if 0 < |tags| {
      var front := tags[..|tags| - 1];
      var u := env(base + |tags| - 1);
      UnitsCalls(w, front, base, env);
      ViewsAppend(Units(Script(w), front, base, env), UnitEvents(w, tags[|tags| - 1], u));
      UnitViews(w, tags[|tags| - 1], u);
    }
  }

  lemma {:induction false} PhasesAt(tags: seq<int>, base: nat, env: nat -> UnitInput, k: nat)
    requires k < |tags|
    ensures Phases(tags, base, env)[3 * k] == AddCall(tags[k], env(base + k))
    ensures Phases(tags, base, env)[3 * k + 1] == UpdateCall(env(base + k))
    ensures Phases(tags, base, env)[3 * k + 2] == DeleteCall(env(base + k))
    decreases |tags|
  {
    var front := tags[..|tags| - 1];
    if k < |tags| - 1 {
      PhasesAt(front, base, env, k);
      assert front[k] == tags[k];
    }
  }

  /**
   Over a whole run the monitor sees exactly three calls per unit of work:
   for the `k`-th unit, `recordAdd` with the `k`-th tag of the schedule, then
   `recordUpdate`, then `recordDelete`, each with that unit's measurements.
   */
  lemma PhasesAll(tags: seq<int>, env: nat -> UnitInput)
    ensures forall k {:trigger tags[k]} :: 0 <= k < |tags| ==>
              Phases(tags, 0, env)[3 * k] == AddCall(tags[k], env(k)) &&
              Phases(tags, 0, env)[3 * k + 1] == UpdateCall(env(k)) &&
              Phases(tags, 0, env)[3 * k + 2] == DeleteCall(env(k))
  {
    forall k | 0 <= k < |tags|
      ensures Phases(tags, 0, env)[3 * k] == AddCall(tags[k], env(k))
      ensures Phases(tags, 0, env)[3 * k + 1] == UpdateCall(env(k))
      ensures Phases(tags, 0, env)[3 * k + 2] == DeleteCall(env(k))
    {
      PhasesAt(tags, 0, env, k);
    }
  }

  lemma RunCalls(scn: Scenario, schedule: seq<int>, env: nat -> UnitInput)
    ensures Calls(RunEvents(scn, schedule, env)) == Phases(Tags(schedule), 0, env)
  {
    RunViews(scn, schedule, env);
    UnitsCalls(scn.workload, Tags(schedule), 0, env);
  }

  lemma RunPhases(scn: Scenario, schedule: seq<int>, env: nat -> UnitInput)
    ensures |Calls(RunEvents(scn, schedule, env))| == 3 * Total(schedule)
    ensures forall k {:trigger Tags(schedule)[k]} :: 0 <= k < Total(schedule) ==>
              var cs := Calls(RunEvents(scn, schedule, env));
              cs[3 * k] == AddCall(Tags(schedule)[k], env(k)) &&
              cs[3 * k + 1] == UpdateCall(env(k)) &&
              cs[3 * k + 2] == DeleteCall(env(k))
  {
    RunCalls(scn, schedule, env);
    PhasesAll(Tags(schedule), env);
  }


  // ---------- how many requests of each kind ----------

  datatype Verb = Creates | Modifies | Removes | Links | Unlinks

  predicate Does(r: Request, v: Verb) {
    match v
    case Creates => r.Create?
    case Modifies => r.Modify?
    case Removes => r.Remove?
    case Links => r.Link?
    case Unlinks => r.Unlink?
  }

  /** How many of the requests are of the given kind. */
  function Tally(reqs: seq<Request>, v: Verb): nat {
    if |reqs| == 0 then 0 else (if Does(reqs[0], v) then 1 else 0) + Tally(reqs[1..], v)
  }

  /** The requests of each kind one unit of work of the workload sends. */
  function PerUnit(w: Workload, v: Verb): nat {
    match v
    case Creates => 2
    case Modifies => 1
    case Removes => if w.Basic? then 1 else 0
    case Links => if w.Relation? then 1 else 0
    case Unlinks => if w.Relation? then 1 else 0
  }

  lemma {:induction false} TallyAppend(a: seq<Request>, b: seq<Request>, v: Verb)
    ensures Tally(a + b, v) == Tally(a, v) + Tally(b, v)
    decreases |a|
  {
    if 0 < |a| {
      assert (a + b)[0] == a[0];
      assert (a + b)[1..] == a[1..] + b;
      TallyAppend(a[1..], b, v);
    } else {
      assert a + b == b;
    }
  }

  lemma TallyOne(r: Request, v: Verb)
    ensures Tally([r], v) == if Does(r, v) then 1 else 0
  {
    assert [r][1..] == [];
  }

  lemma TallyTwo(a: Request, b: Request, v: Verb)
    ensures Tally([a, b], v) == Tally([a], v) + Tally([b], v)
  {
    TallyAppend([a], [b], v);
    assert [a] + [b] == [a, b];
  }

  lemma TallyThree(a: Request, b: Request, c: Request, v: Verb)
    ensures Tally([a, b, c], v) == Tally([a], v) + Tally([b], v) + Tally([c], v)
  {
    TallyAppend([a, b], [c], v);
    TallyTwo(a, b, v);
    assert [a, b] + [c] == [a, b, c];
  }

  /** A basic unit: the timed create, then the untimed create whose id the update and the delete use. */
  lemma BasicUnit(k: Entity, scale: int, u: UnitInput)
    ensures Requests(UnitEvents(Basic(k), scale, u))
         == [Create(k, u.firstId), Create(k, u.secondId), Modify(k, u.secondId), Remove(k, u.secondId)]
    ensures Timed(UnitEvents(Basic(k), scale, u)) == [Create(k, u.firstId), Modify(k, u.secondId), Remove(k, u.secondId)]
  {
    UnitViews(Basic(k), scale, u);
    SetupViews(Basic(k), u);
  }

  /**
   A relation unit: owner and target are created untimed; the timed link and
   the timed unlink name that same pair; the timed update targets the target.
   */
  lemma RelationUnit(o: Entity, rel: string, t: Entity, scale: int, u: UnitInput)
    ensures Requests(UnitEvents(Relation(o, rel, t), scale, u))
         == [Create(o, u.firstId), Create(t, u.secondId), Link(o, u.firstId, rel, u.secondId),
             Modify(t, u.secondId), Unlink(o, u.firstId, rel, u.secondId)]
    ensures Timed(UnitEvents(Relation(o, rel, t), scale, u))
         == [Link(o, u.firstId, rel, u.secondId), Modify(t, u.secondId), Unlink(o, u.firstId, rel, u.secondId)]
  {
    UnitViews(Relation(o, rel, t), scale, u);
    SetupViews(Relation(o, rel, t), u);
  }

  lemma UnitTally(w: Workload, scale: int, u: UnitInput, v: Verb)
    ensures Tally(Requests(UnitEvents(w, scale, u)), v) == PerUnit(w, v)
  {
    match w
    case Basic(k) =>
      BasicUnit(k, scale, u);
      var a, b, c, d := Create(k, u.firstId), Create(k, u.secondId), Modify(k, u.secondId), Remove(k, u.secondId);
      assert [a, b, c, d] == [a, b] + [c, d];
      TallyAppend([a, b], [c, d], v);
      TallyTwo(a, b, v);
      TallyTwo(c, d, v);
      TallyOne(a, v); TallyOne(b, v); TallyOne(c, v); TallyOne(d, v);
    case Relation(o, rel, t) =>
      RelationUnit(o, rel, t, scale, u);
      var a, b, c := Create(o, u.firstId), Create(t, u.secondId), Link(o, u.firstId, rel, u.secondId);
      var d, e := Modify(t, u.secondId), Unlink(o, u.firstId, rel, u.secondId);
      assert [a, b, c, d, e] == [a, b, c] + [d, e];
      TallyAppend([a, b, c], [d, e], v);
      TallyThree(a, b, c, v);
      TallyTwo(d, e, v);
      TallyOne(a, v); TallyOne(b, v); TallyOne(c, v); TallyOne(d, v); TallyOne(e, v);
  }

  lemma MulSucc(n: nat, m: nat)
    ensures n * m + n == n * (m + 1)
  {
  }

  /** When every unit sends `n` requests of a kind, the units of `tags` send `n` per tag. */
  lemma {:induction false} UnitsTally(unit: UnitScript, tags: seq<int>, base: nat, env: nat -> UnitInput, v: Verb, n: nat)
    requires forall s, u :: Tally(Requests(unit(s, u)), v) == n
    ensures Tally(Requests(Units(unit, tags, base, env)), v) == n * |tags|
    decreases |tags|
  {
    if 0 < |tags| {
      var front := tags[..|tags| - 1];
      var last := unit(tags[|tags| - 1], env(base + |tags| - 1));
      UnitsTally(unit, front, base, env, v, n);
      ViewsAppend(Units(unit, front, base, env), last);
      TallyAppend(Requests(Units(unit, front, base, env)), Requests(last), v);
      MulSucc(n, |front|);
    }
  }

  /**
   Over a whole run, a scenario sends `PerUnit` requests of each kind per unit
   of work: a basic scenario two creates and one delete, a relation scenario
   two creates, one link and one unlink, and no delete.
   */
  lemma RunTally(scn: Scenario, schedule: seq<int>, env: nat -> UnitInput, v: Verb)
    ensures Tally(Requests(RunEvents(scn, schedule, env)), v) == PerUnit(scn.workload, v) * Total(schedule)
  {
    var w := scn.workload;
    forall s, u ensures Tally(Requests(Script(w)(s, u)), v) == PerUnit(w, v) {
      UnitTally(w, s, u, v);
    }
    RunViews(scn, schedule, env);
    UnitsTally(Script(w), Tags(schedule), 0, env, v, PerUnit(w, v));
  }

  // ---------- the file is written once, last ----------

  lemma UnitWritesNothing(w: Workload, scale: int, u: UnitInput)
    ensures forall i :: 0 <= i < |UnitEvents(w, scale, u)| ==> !UnitEvents(w, scale, u)[i].Write?
  {
    var a := AddRequests(w, u);
    assert UnitEvents(w, scale, u) == a + Closing(w, scale, u);
    assert forall i :: 0 <= i < |a| ==> a[i].Http?;
  }

  lemma {:induction false} UnitsWriteNothing(w: Workload, tags: seq<int>, base: nat, env: nat -> UnitInput)
    ensures forall i :: 0 <= i < |Units(Script(w), tags, base, env)| ==> !Units(Script(w), tags, base, env)[i].Write?
    decreases |tags|
  {
    if 0 < |tags| {
      UnitsWriteNothing(w, tags[..|tags| - 1], base, env);
      UnitWritesNothing(w, tags[|tags| - 1], env(base + |tags| - 1));
    }
  }

  /**
   `writeCSV` runs exactly once, as the last step of a run; a run cut short by
   an exception anywhere before it therefore writes no file.
   */
  lemma WriteOnlyAtEnd(scn: Scenario, schedule: seq<int>, env: nat -> UnitInput)
    ensures var ev := RunEvents(scn, schedule, env);
            ev[|ev| - 1] == Write(scn.file) && forall i :: 0 <= i < |ev| - 1 ==> !ev[i].Write?
  {
    ScheduleUnits(Script(scn.workload), schedule, env);
    UnitsWriteNothing(scn.workload, Tags(schedule), 0, env);
  }

  // ---------- the basic unit with a single create ----------

  /** A timed request followed by the monitor call that records it. */
  function TimedStep(req: Request, call: Call): seq<Event> {
    [Http(req, true), Record(call)]
  }

  lemma TimedStepViews(req: Request, call: Call)
    ensures Calls(TimedStep(req, call)) == [call]
    ensures Requests(TimedStep(req, call)) == [req]
  {
    ViewsCons(Record(call), []);
    ViewsCons(Http(req, true), [Record(call)]);
  }

  /**
   The basic unit as its phases evidently intend it: the timed create is the
   entity that the update and the delete then address, and no second entity
   is created.
   */
  function SingleCreateEvents(k: Entity, scale: int, u: UnitInput): seq<Event> {
    TimedStep(Create(k, u.firstId), AddCall(scale, u))
    + TimedStep(Modify(k, u.firstId), UpdateCall(u))
    + TimedStep(Remove(k, u.firstId), DeleteCall(u))
  }

  function SingleCreate(k: Entity): UnitScript {
    (scale, u) => SingleCreateEvents(k, scale, u)
  }

  lemma SingleCreateUnit(k: Entity, scale: int, u: UnitInput)
    ensures Calls(SingleCreateEvents(k, scale, u)) == [AddCall(scale, u), UpdateCall(u), DeleteCall(u)]
    ensures Requests(SingleCreateEvents(k, scale, u)) == [Create(k, u.firstId), Modify(k, u.firstId), Remove(k, u.firstId)]
  {
    var a := TimedStep(Create(k, u.firstId), AddCall(scale, u));
    var b := TimedStep(Modify(k, u.firstId), UpdateCall(u));
    var c := TimedStep(Remove(k, u.firstId), DeleteCall(u));
    TimedStepViews(Create(k, u.firstId), AddCall(scale, u));
    TimedStepViews(Modify(k, u.firstId), UpdateCall(u));
    TimedStepViews(Remove(k, u.firstId), DeleteCall(u));
    ViewsAppend(a, b);
    ViewsAppend(a + b, c);
  }

  lemma {:induction false} UnitsSameCalls(a: UnitScript, b: UnitScript, tags: seq<int>, base: nat, env: nat -> UnitInput)
    requires forall s, u :: Calls(a(s, u)) == Calls(b(s, u))
    ensures Calls(Units(a, tags, base, env)) == Calls(Units(b, tags, base, env))
    decreases |tags|
  {
    if 0 < |tags| {
      var front := tags[..|tags| - 1];
      var s, u := tags[|tags| - 1], env(base + |tags| - 1);
      UnitsSameCalls(a, b, front, base, env);
      ViewsAppend(Units(a, front, base, env), a(s, u));
      ViewsAppend(Units(b, front, base, env), b(s, u));
    }
  }

  /**
   With a single create per unit, a run creates exactly as many entities as it
   deletes, and for the same clock and probe readings the monitor receives the
   same calls as with the double create.
   */
  lemma SingleCreateBalanced(k: Entity, schedule: seq<int>, env: nat -> UnitInput)
    ensures var reqs := Requests(Units(SingleCreate(k), Tags(schedule), 0, env));
            Tally(reqs, Creates) == Tally(reqs, Removes) == Total(schedule)
    ensures Calls(Units(SingleCreate(k), Tags(schedule), 0, env)) == Calls(RunEvents(Scenario(Basic(k), ""), schedule, env))
  {
    forall s, u, v | v in {Creates, Removes}
      ensures Tally(Requests(SingleCreate(k)(s, u)), v) == 1
    {
      SingleCreateUnit(k, s, u);
      TallyThree(Create(k, u.firstId), Modify(k, u.firstId), Remove(k, u.firstId), v);
      TallyOne(Create(k, u.firstId), v);
      TallyOne(Modify(k, u.firstId), v);
      TallyOne(Remove(k, u.firstId), v);
    }
    UnitsTally(SingleCreate(k), Tags(schedule), 0, env, Creates, 1);
    UnitsTally(SingleCreate(k), Tags(schedule), 0, env, Removes, 1);
    forall s, u ensures Calls(SingleCreate(k)(s, u)) == Calls(Script(Basic(k))(s, u)) {
      SingleCreateUnit(k, s, u);
      UnitViews(Basic(k), s, u);
    }
    UnitsSameCalls(SingleCreate(k), Script(Basic(k)), Tags(schedule), 0, env);
    RunViews(Scenario(Basic(k), ""), schedule, env);
  }
}
