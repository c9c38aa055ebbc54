/**
 The load schedule `SCALES` shared by every scenario, and the sequence of
 scale tags the driver's nested loops hand to `recordAdd`: for each scale `s`
 in order, `s` units of work tagged `s`.
 */
module Schedule {

  /** `SCALES = {1, 5, 10, 50, 75, 100}`, identical in all eight scenario classes. */
  const Scales: seq<int> := [1, 5, 10, 50, 75, 100]

  /** How often `for (int i = 0; i < scale; i++)` runs its body: never for a scale below 1. */
  function Reps(s: int): nat {
    if 0 < s then s else 0
  }

  /** The number of units of work a schedule runs. */
  function Total(schedule: seq<int>): nat {
    if |schedule| == 0 then 0 else Total(schedule[..|schedule| - 1]) + Reps(schedule[|schedule| - 1])
  }

  function Repeat(v: int, n: nat): (r: seq<int>)
    ensures |r| == n
    ensures forall i :: 0 <= i < n ==> r[i] == v
  {
    if n == 0 then [] else Repeat(v, n - 1) + [v]
  }

  /** The scale recorded by each unit of work, in the order the units run. */
  function Tags(schedule: seq<int>): (t: seq<int>)
    ensures |t| == Total(schedule)
  {
    if |schedule| == 0 then []
    else
      var s := schedule[|schedule| - 1];
      Tags(schedule[..|schedule| - 1]) + Repeat(s, Reps(s))
  }

  /** How many elements of `xs` equal `v`. */
  function Count(xs: seq<int>, v: int): nat {
    if |xs| == 0 then 0 else Count(xs[..|xs| - 1], v) + (if xs[|xs| - 1] == v then 1 else 0)
  }

  /** How many units the schedule devotes to scale `v`: the repetitions of every entry equal to `v`. */
  function Demand(schedule: seq<int>, v: int): nat {
    if |schedule| == 0 then 0
    else
      var s := schedule[|schedule| - 1];
      Demand(schedule[..|schedule| - 1], v) + (if s == v then Reps(s) else 0)
  }

  predicate Distinct(xs: seq<int>) {
    forall i, j :: 0 <= i < j < |xs| ==> xs[i] != xs[j]
  }

  predicate NonDecreasing(xs: seq<int>) {
    forall i, j :: 0 <= i <= j < |xs| ==> xs[i] <= xs[j]
  }

  lemma {:induction false} CountAppend(a: seq<int>, b: seq<int>, v: int)
    ensures Count(a + b, v) == Count(a, v) + Count(b, v)
    decreases |b|
  {
    if |b| == 0 {
      assert a + b == a;
    } else {
      assert (a + b)[..|a + b| - 1] == a + b[..|b| - 1];
      CountAppend(a, b[..|b| - 1], v);
    }
  }

  lemma {:induction false} CountRepeat(s: int, n: nat, v: int)
    ensures Count(Repeat(s, n), v) == if s == v then n else 0
    decreases n
  {
    if 0 < n {
      assert Repeat(s, n)[..n - 1] == Repeat(s, n - 1);
      CountRepeat(s, n - 1, v);
    }
  }

  /** Each scale receives exactly as many rows as the schedule asks for it. */
  lemma {:induction false} TagsCount(schedule: seq<int>, v: int)
    ensures Count(Tags(schedule), v) == Demand(schedule, v)
    decreases |schedule|
  {
    if 0 < |schedule| {
      var s := schedule[|schedule| - 1];
      TagsCount(schedule[..|schedule| - 1], v);
      CountAppend(Tags(schedule[..|schedule| - 1]), Repeat(s, Reps(s)), v);
      CountRepeat(s, Reps(s), v);
    }
  }

  /** In a schedule without repeats, scale `v` gets `v` units if it is listed (and positive) and none otherwise. */
  lemma {:induction false} DemandDistinct(schedule: seq<int>, v: int)
    requires Distinct(schedule)
    ensures Demand(schedule, v) == if v in schedule then Reps(v) else 0
    decreases |schedule|
  {
    if 0 < |schedule| {
      var front := schedule[..|schedule| - 1];
      var s := schedule[|schedule| - 1];
      assert Distinct(front);
      DemandDistinct(front, v);
      assert schedule == front + [s];
      if s == v {
        assert v !in front;
      }
    }
  }

  /** Every tag is an entry of the schedule, and a positive one. */
  lemma {:induction false} TagsFromSchedule(schedule: seq<int>)
    ensures forall i :: 0 <= i < |Tags(schedule)| ==> Tags(schedule)[i] in schedule && 0 < Tags(schedule)[i]
    decreases |schedule|
  {
    if 0 < |schedule| {
      var front := schedule[..|schedule| - 1];
      var s := schedule[|schedule| - 1];
      TagsFromSchedule(front);
      var t := Tags(schedule);
      forall i | 0 <= i < |t|
        ensures t[i] in schedule && 0 < t[i]
      {
        if i < |Tags(front)| {
          assert t[i] == Tags(front)[i];
          assert Tags(front)[i] in front;
        } else {
          assert t[i] == Repeat(s, Reps(s))[i - |Tags(front)|] == s;
        }
      }
    }
  }

  /** A non-decreasing schedule yields non-decreasing tags: rows come out grouped by scale, in schedule order. */
  lemma {:induction false} TagsSorted(schedule: seq<int>)
    requires NonDecreasing(schedule)
    ensures NonDecreasing(Tags(schedule))
    decreases |schedule|
  {
    if 0 < |schedule| {
      var front := schedule[..|schedule| - 1];
      var s := schedule[|schedule| - 1];
      TagsSorted(front);
      TagsFromSchedule(front);
      var t := Tags(schedule);
      var tf := Tags(front);
      forall i, j | 0 <= i <= j < |t|
        ensures t[i] <= t[j]
      {
        if j < |tf| {
          assert t[i] == tf[i] && t[j] == tf[j];
        } else if i < |tf| {
          assert t[i] == tf[i] && tf[i] in front;
          var k :| 0 <= k < |front| && front[k] == tf[i];
          assert schedule[k] <= schedule[|schedule| - 1];
          assert t[j] == s;
        } else {
          assert t[i] == s && t[j] == s;
        }
      }
    }
  }

  /** `SCALES` runs 241 units of work, its entries are distinct and ascending. */
  lemma ScalesShape()
    ensures Total(Scales) == 241
    ensures Distinct(Scales) && NonDecreasing(Scales)
  {
    TotalStep(Scales, 0);
    TotalStep(Scales, 1);
    TotalStep(Scales, 2);
    TotalStep(Scales, 3);
    TotalStep(Scales, 4);
    TotalStep(Scales, 5);
    assert Scales[..0] == [];
    assert Scales[..6] == Scales;
  }

  lemma TotalStep(schedule: seq<int>, k: nat)
    requires k < |schedule|
    ensures Total(schedule[..k + 1]) == Total(schedule[..k]) + Reps(schedule[k])
  {
    assert schedule[..k + 1][..k] == schedule[..k];
  }

  /** Under `SCALES`, scale `v` is the tag of `v` rows if it is listed and of none otherwise. */
  lemma ScalesCount(v: int)
    ensures Count(Tags(Scales), v) == if v in Scales then v else 0
  {
    ScalesShape();
    TagsCount(Scales, v);
    DemandDistinct(Scales, v);
  }

  /**
   The row tags of a full run under `SCALES`: 241 of them, exactly `s` tagged
   `s` for each scale in the schedule, none tagged anything else, in
   non-decreasing order.
   */
  lemma ScalesTags()
    ensures |Tags(Scales)| == 241
    ensures forall s :: s in Scales ==> Count(Tags(Scales), s) == s
    ensures forall v :: v !in Scales ==> Count(Tags(Scales), v) == 0
    ensures NonDecreasing(Tags(Scales))
  {
    ScalesShape();
    forall v
      ensures Count(Tags(Scales), v) == if v in Scales then v else 0
    {
      ScalesCount(v);
    }
    TagsSorted(Scales);
  }
}
