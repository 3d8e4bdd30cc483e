/** mesh/recovery/speculation.py: stragglers are tasks that run longer than a multiple of the median. */
module Speculation {
  import opened Sorting
  import opened Models

  datatype Config = Config(multiplier: real, minRuntime: real)

  type Starts = map<TaskId, real>

  /** A recorded start; Python reads the time zero as no start at all. */
  predicate Started(starts: Starts, t: Task) {
    t.id in starts && starts[t.id] != 0.0
  }

  function RunningTasks(tasks: seq<Task>): seq<Task> {
    Filter(tasks, (t: Task) => t.state == Running)
  }

  function Runtimes(starts: Starts, now: real, running: seq<Task>): seq<real> {
    if |running| == 0 then []
    else (if Started(starts, running[0]) then [now - starts[running[0].id]] else [])
         + Runtimes(starts, now, running[1..])
  }

  predicate AtMost(a: real, b: real) { a <= b }

  /** `statistics.median`: the middle value, or the mean of the two middle ones. */
  function Median(xs: seq<real>): real
    requires |xs| > 0
  {
    SortSizes(xs);
    var s := Sort(xs, AtMost);
    if |s| % 2 == 1 then s[|s| / 2] else (s[|s| / 2 - 1] + s[|s| / 2]) / 2.0
  }

  lemma {:induction false} SortSizes(xs: seq<real>)
    ensures |Sort(xs, AtMost)| == |xs| && Sorted(Sort(xs, AtMost), AtMost)
    ensures forall x :: x in Sort(xs, AtMost) <==> x in xs
  {
    SortSorts(xs, AtMost);
  }

  function Threshold(c: Config, runtimes: seq<real>): real
    requires |runtimes| > 0
  {
    Max(c.minRuntime, Median(runtimes) * c.multiplier)
  }

  predicate IsSlow(starts: Starts, dups: set<TaskId>, now: real, threshold: real, t: Task) {
    Started(starts, t) && now - starts[t.id] > threshold && t.id !in dups
  }

  function Slow(starts: Starts, dups: set<TaskId>, now: real, threshold: real, running: seq<Task>): seq<Task> {
    if |running| == 0 then []
    else
      var t := running[0];
      (if IsSlow(starts, dups, now, threshold, t) then [t] else [])
      + Slow(starts, dups, now, threshold, running[1..])
  }

  /** `dups` are the tasks that already have a speculative duplicate. */
  function Stragglers(c: Config, starts: Starts, dups: set<TaskId>, now: real, tasks: seq<Task>): seq<Task> {
    var running := RunningTasks(tasks);
    var runtimes := Runtimes(starts, now, running);
    if |running| < 2 || |runtimes| == 0 then []
    else Slow(starts, dups, now, Threshold(c, runtimes), running)
  }

  lemma {:induction false} RuntimesSnoc(starts: Starts, now: real, running: seq<Task>, t: Task)
    ensures Runtimes(starts, now, running + [t]) ==
      Runtimes(starts, now, running) + (if Started(starts, t) then [now - starts[t.id]] else [])
  {
    if |running| == 0 {
      assert [t][1..] == [];
    } else {
      var u := running[0];
      var head := if Started(starts, u) then [now - starts[u.id]] else [];
      var last := if Started(starts, t) then [now - starts[t.id]] else [];
      RuntimesSnoc(starts, now, running[1..], t);
      assert (running + [t])[1..] == running[1..] + [t];
      assert head + (Runtimes(starts, now, running[1..]) + last) == (head + Runtimes(starts, now, running[1..])) + last;
    }
  }

  lemma {:induction false} SlowSnoc(starts: Starts, dups: set<TaskId>, now: real, threshold: real, running: seq<Task>,
                                    t: Task)
    ensures Slow(starts, dups, now, threshold, running + [t]) ==
      Slow(starts, dups, now, threshold, running) + (if IsSlow(starts, dups, now, threshold, t) then [t] else [])
  {
    if |running| == 0 {
      assert [t][1..] == [];
    } else {
      var head := if IsSlow(starts, dups, now, threshold, running[0]) then [running[0]] else [];
      var last := if IsSlow(starts, dups, now, threshold, t) then [t] else [];
      var rest := Slow(starts, dups, now, threshold, running[1..]);
      SlowSnoc(starts, dups, now, threshold, running[1..], t);
      assert (running + [t])[1..] == running[1..] + [t];
      assert head + (rest + last) == (head + rest) + last;
    }
  }

  class SpeculativeExecutor {
    const config: Config
    var startTimes: Starts
    var speculative: map<TaskId, TaskId>

    constructor (config: Config)
      ensures this.config == config && startTimes == map[] && speculative == map[]
    {
      this.config := config;
      startTimes, speculative := map[], map[];
    }

    method RecordStart(id: TaskId, now: real)
      modifies this
      ensures startTimes == old(startTimes)[id := now] && speculative == old(speculative)
    {
      startTimes := startTimes[id := now];
    }

    method Clear(id: TaskId)
      modifies this
      ensures startTimes == old(startTimes) - {id} && speculative == old(speculative) - {id}
    {
      startTimes := startTimes - {id};
      speculative := speculative - {id};
    }

    method FindStragglers(tasks: seq<Task>, now: real) returns (stragglers: seq<Task>)
      ensures stragglers == Stragglers(config, startTimes, speculative.Keys, now, tasks)
    {
      var running := RunningTasks(tasks);
      if |running| < 2 {
        return [];
      }
      var runtimes := [];
      assert running[..0] == [];
      for i := 0 to |running|
        invariant runtimes == Runtimes(startTimes, now, running[..i])
      {
        RuntimesSnoc(startTimes, now, running[..i], running[i]);
        assert running[..i + 1] == running[..i] + [running[i]];
        if running[i].id in startTimes && startTimes[running[i].id] != 0.0 {
          runtimes := runtimes + [now - startTimes[running[i].id]];
        }
      }
      assert running[..|running|] == running;
      if |runtimes| == 0 {
        return [];
      }
      var threshold := Threshold(config, runtimes);
      stragglers := [];
      for i := 0 to |running|
        invariant stragglers == Slow(startTimes, speculative.Keys, now, threshold, running[..i])
      {
        SlowSnoc(startTimes, speculative.Keys, now, threshold, running[..i], running[i]);
        assert running[..i + 1] == running[..i] + [running[i]];
        var t := running[i];
        if t.id in startTimes && startTimes[t.id] != 0.0 && now - startTimes[t.id] > threshold && t.id !in speculative {
          stragglers := stragglers + [t];
        }
      }
    }
  }

  // ---- at most half of the tasks are stragglers ----

  function CountAbove(xs: seq<real>, m: real): nat {
    if |xs| == 0 then 0 else (if xs[0] > m then 1 else 0) + CountAbove(xs[1..], m)
  }

  lemma {:induction false} CountAboveInsert(x: real, xs: seq<real>, m: real)
    ensures CountAbove(Insert(x, xs, AtMost), m) == (if x > m then 1 else 0) + CountAbove(xs, m)
  {
    if |xs| == 0 || x <= xs[0] {
    } else {
      CountAboveInsert(x, xs[1..], m);
    }
  }

  lemma {:induction false} CountAboveSort(xs: seq<real>, m: real)
    ensures CountAbove(Sort(xs, AtMost), m) == CountAbove(xs, m)
  {
    if |xs| > 0 {
      CountAboveSort(xs[1..], m);
      CountAboveInsert(xs[0], Sort(xs[1..], AtMost), m);
    }
  }

  lemma {:induction false} LowPrefixBounds(xs: seq<real>, m: real, c: nat)
    requires c <= |xs| && forall i :: 0 <= i < c ==> xs[i] <= m
    ensures CountAbove(xs, m) <= |xs| - c
  {
    if |xs| > 0 {
      LowPrefixBounds(xs[1..], m, if c > 0 then c - 1 else 0);
    }
  }

  lemma {:induction false} MedianCoversHalf(xs: seq<real>)
    requires |xs| > 0
    ensures |Sort(xs, AtMost)| == |xs|
    ensures Sort(xs, AtMost)[(|xs| + 1) / 2 - 1] <= Median(xs)
  {
    SortSizes(xs);
    var s := Sort(xs, AtMost);
    if |s| % 2 == 0 {
      assert AtMost(s[|s| / 2 - 1], s[|s| / 2]);
    }
  }

  /** At most half of the values lie above their median, rounding down. */
  lemma {:induction false} AboveMedian(xs: seq<real>)
    requires |xs| > 0
    ensures CountAbove(xs, Median(xs)) <= |xs| / 2
  {
    MedianCoversHalf(xs);
    var s := Sort(xs, AtMost);
    var c := (|xs| + 1) / 2;
    var m := Median(xs);
    forall i | 0 <= i < c ensures s[i] <= m {
      SortSizes(xs);
      assert i < c - 1 ==> AtMost(s[i], s[c - 1]);
    }
    LowPrefixBounds(s, m, c);
    CountAboveSort(xs, m);
  }

  lemma {:induction false} SlowCount(starts: Starts, dups: set<TaskId>, now: real, threshold: real, m: real,
                                     running: seq<Task>)
    requires threshold >= m
    ensures |Slow(starts, dups, now, threshold, running)| <= CountAbove(Runtimes(starts, now, running), m)
  {
    if |running| > 0 {
      SlowCount(starts, dups, now, threshold, m, running[1..]);
      var rest := Runtimes(starts, now, running[1..]);
      assert [] + rest == rest;
      if Started(starts, running[0]) {
        var first := now - starts[running[0].id];
        assert ([first] + rest)[1..] == rest;
      }
    }
  }

  lemma {:induction false} MedianNonNegative(xs: seq<real>)
    requires |xs| > 0 && forall x :: x in xs ==> x >= 0.0
    ensures Median(xs) >= 0.0
  {
    SortSizes(xs);
    var s := Sort(xs, AtMost);
    assert s[|s| / 2] in s;
    assert |s| > 1 ==> s[|s| / 2 - 1] in s;
  }

  /** With a multiplier of at least one, at most half (rounded down) of the timed running tasks are stragglers. */
  lemma {:induction false} StragglerBound(c: Config, starts: Starts, dups: set<TaskId>, now: real, tasks: seq<Task>)
    requires c.multiplier >= 1.0
    requires forall x :: x in Runtimes(starts, now, RunningTasks(tasks)) ==> x >= 0.0
    ensures |Stragglers(c, starts, dups, now, tasks)| <= |Runtimes(starts, now, RunningTasks(tasks))| / 2
  {
    var running := RunningTasks(tasks);
    var runtimes := Runtimes(starts, now, running);
    if |running| >= 2 && |runtimes| > 0 {
      var m := Median(runtimes);
      MedianNonNegative(runtimes);
      assert m * c.multiplier - m == m * (c.multiplier - 1.0) >= 0.0;
      SlowCount(starts, dups, now, Threshold(c, runtimes), m, running);
      AboveMedian(runtimes);
    }
  }

  /** The multiplier decides it: the bound holds for all task tables exactly when the multiplier is at least one. */
  lemma {:induction false} StragglerBoundExactly(c: Config)
    ensures (forall starts: Starts, dups: set<TaskId>, now: real, tasks: seq<Task> ::
               UniqueIds(tasks) && (forall x :: x in Runtimes(starts, now, RunningTasks(tasks)) ==> x >= 0.0) ==>
                 |Stragglers(c, starts, dups, now, tasks)| <= |Runtimes(starts, now, RunningTasks(tasks))| / 2)
            <==> c.multiplier >= 1.0
  {
    if c.multiplier >= 1.0 {
      forall starts: Starts, dups: set<TaskId>, now: real, tasks: seq<Task>
        | UniqueIds(tasks) && forall x :: x in Runtimes(starts, now, RunningTasks(tasks)) ==> x >= 0.0
        ensures |Stragglers(c, starts, dups, now, tasks)| <= |Runtimes(starts, now, RunningTasks(tasks))| / 2
      {
        StragglerBound(c, starts, dups, now, tasks);
      }
    } else {
      var starts, now, tasks := TwoStragglers(c);
      assert |Stragglers(c, starts, {}, now, tasks)| > |Runtimes(starts, now, RunningTasks(tasks))| / 2;
    }
  }

  /** Two tasks that have run equally long: below multiplier one both are stragglers. */
  lemma {:induction false} TwoStragglers(c: Config) returns (starts: Starts, now: real, tasks: seq<Task>)
    requires c.multiplier < 1.0
    ensures UniqueIds(tasks) && |Runtimes(starts, now, RunningTasks(tasks))| == 2
    ensures forall x :: x in Runtimes(starts, now, RunningTasks(tasks)) ==> x >= 0.0
    ensures |Stragglers(c, starts, {}, now, tasks)| == 2
  {
    var req := Requirements(1.0, 1.0, 0, 0.0, None, 0.0, None);
    var t := Task("t", req, None, false, 30.0, 1.0, Running, Some("n"), 0.0, map[]);
    var u := t.(id := "u");
    var runtime := Max(c.minRuntime, 0.0) + 1.0;
    starts, now, tasks := map["t" := 1.0, "u" := 1.0], 1.0 + runtime, [t, u];
    PairRuns(t, u);
    PairRuntimes(starts, now, t, u);
    PairThreshold(c, runtime);
    PairSlow(starts, now, Threshold(c, [runtime, runtime]), t, u);
  }

  lemma {:induction false} PairRuns(t: Task, u: Task)
    requires t.state == Running && u.state == Running
    ensures RunningTasks([t, u]) == [t, u]
  {
    assert [t, u][1..] == [u] && [u][1..] == [];
    assert Filter([u], (x: Task) => x.state == Running) == [u];
  }

  lemma {:induction false} PairRuntimes(starts: Starts, now: real, t: Task, u: Task)
    requires Started(starts, t) && Started(starts, u)
    ensures Runtimes(starts, now, [t, u]) == [now - starts[t.id], now - starts[u.id]]
  {
    assert [t, u][1..] == [u] && [u][1..] == [];
    assert Runtimes(starts, now, [u]) == [now - starts[u.id]];
  }

  lemma {:induction false} LowThreshold(c: Config, xs: seq<real>, x: real, scaled: real)
    requires |xs| > 0 && Median(xs) == x && x * c.multiplier == scaled
    requires scaled < x && c.minRuntime < x
    ensures Threshold(c, xs) < x
  {
  }

  lemma {:induction false} PairThreshold(c: Config, x: real)
    requires c.multiplier < 1.0 && x > 0.0 && x > c.minRuntime
    ensures Threshold(c, [x, x]) < x
  {
    var scaled := ScaledDown(x, c.multiplier);
    EqualPairMedian(x);
    LowThreshold(c, [x, x], x, scaled);
  }

  lemma {:induction false} ScaledDown(x: real, factor: real) returns (scaled: real)
    requires x > 0.0 && factor < 1.0
    ensures x * factor == scaled && scaled < x
  {
    scaled := x * factor;
    assert x - x * factor == x * (1.0 - factor) > 0.0;
  }

  lemma {:induction false} EqualPairMedian(x: real)
    ensures Median([x, x]) == x
  {
    SortSizes([x, x]);
    var s := Sort([x, x], AtMost);
    assert s[0] in [x, x] && s[1] in [x, x];
  }

  lemma {:induction false} PairSlow(starts: Starts, now: real, threshold: real, t: Task, u: Task)
    requires Started(starts, t) && now - starts[t.id] > threshold
    requires Started(starts, u) && now - starts[u.id] > threshold
    ensures Slow(starts, {}, now, threshold, [t, u]) == [t, u]
  {
    assert [t, u][1..] == [u] && [u][1..] == [];
    assert Slow(starts, {}, now, threshold, [u]) == [u];
  }

  // ---- the median and the stragglers exactly ----

  function CountBelow(xs: seq<real>, m: real): nat {
    if |xs| == 0 then 0 else (if xs[0] < m then 1 else 0) + CountBelow(xs[1..], m)
  }

  lemma {:induction false} CountBelowInsert(x: real, xs: seq<real>, m: real)
    ensures CountBelow(Insert(x, xs, AtMost), m) == (if x < m then 1 else 0) + CountBelow(xs, m)
  {
    if |xs| == 0 || x <= xs[0] {
    } else {
      CountBelowInsert(x, xs[1..], m);
    }
  }

  lemma {:induction false} CountBelowSort(xs: seq<real>, m: real)
    ensures CountBelow(Sort(xs, AtMost), m) == CountBelow(xs, m)
  {
    if |xs| > 0 {
      CountBelowSort(xs[1..], m);
      CountBelowInsert(xs[0], Sort(xs[1..], AtMost), m);
    }
  }

  lemma {:induction false} NoneBelow(xs: seq<real>, m: real)
    requires forall i :: 0 <= i < |xs| ==> xs[i] >= m
    ensures CountBelow(xs, m) == 0
  {
    if |xs| > 0 {
      NoneBelow(xs[1..], m);
    }
  }

  lemma {:induction false} HighSuffixBounds(xs: seq<real>, m: real, c: nat)
    requires c <= |xs| && forall i :: c <= i < |xs| ==> xs[i] >= m
    ensures CountBelow(xs, m) <= c
  {
    if c == 0 {
      NoneBelow(xs, m);
    } else {
      HighSuffixBounds(xs[1..], m, c - 1);
    }
  }

  /** The element at place `k` of the sorted values: at most `k` values lie below it and at most the rest above. */
  lemma {:induction false} PlaceInOrder(xs: seq<real>, k: nat) returns (x: real)
    requires k < |xs|
    ensures |Sort(xs, AtMost)| == |xs| && x == Sort(xs, AtMost)[k] && x in xs
    ensures CountBelow(xs, x) <= k && CountAbove(xs, x) <= |xs| - 1 - k
  {
    SortSizes(xs);
    var s := Sort(xs, AtMost);
    x := s[k];
    assert s[k] in s;
    forall i | 0 <= i < |s| ensures (i <= k ==> s[i] <= x) && (i >= k ==> s[i] >= x) {
      assert i < k ==> AtMost(s[i], s[k]);
      assert i > k ==> AtMost(s[k], s[i]);
    }
    HighSuffixBounds(s, x, k);
    LowPrefixBounds(s, x, k + 1);
    CountBelowSort(xs, x);
    CountAboveSort(xs, x);
  }

  /** `x` is a value with at most `below` others under it and at most `above` over it. */
  ghost predicate Middle(xs: seq<real>, x: real, below: int, above: int) {
    x in xs && CountBelow(xs, x) <= below && CountAbove(xs, x) <= above
  }

  /** The median is the value in the middle, or halfway between the two values in the middle. */
  lemma {:induction false} MedianExactly(xs: seq<real>) returns (low: real, high: real)
    requires |xs| > 0
    ensures Middle(xs, low, (|xs| - 1) / 2, |xs| / 2) && Middle(xs, high, |xs| / 2, (|xs| - 1) / 2)
    ensures Median(xs) == (low + high) / 2.0 && low <= high
    ensures |xs| % 2 == 1 ==> Median(xs) == low == high
  {
    low := PlaceInOrder(xs, (|xs| - 1) / 2);
    high := PlaceInOrder(xs, |xs| / 2);
    SortSizes(xs);
    assert |xs| % 2 == 0 ==> AtMost(low, high);
  }

  lemma {:induction false} SlowMember(starts: Starts, dups: set<TaskId>, now: real, threshold: real, running: seq<Task>,
                                      t: Task)
    ensures t in Slow(starts, dups, now, threshold, running) <==>
      t in running && IsSlow(starts, dups, now, threshold, t)
  {
    if |running| > 0 {
      SlowMember(starts, dups, now, threshold, running[1..], t);
    }
  }

  lemma {:induction false} RuntimesOf(starts: Starts, now: real, running: seq<Task>)
    ensures var timed := Filter(running, (t: Task) => t.id in starts && starts[t.id] != 0.0);
            && |Runtimes(starts, now, running)| == |timed|
            && forall k :: 0 <= k < |timed| ==>
                 timed[k].id in starts && Runtimes(starts, now, running)[k] == now - starts[timed[k].id]
  {
    if |running| > 0 {
      RuntimesOf(starts, now, running[1..]);
    }
  }

  /**
   * A task is a straggler if and only if it runs with another task, has a start other than zero, no duplicate yet,
   * and has run longer than both the minimum and the multiple of the median.
   */
  lemma {:induction false} StragglersExactly(c: Config, starts: Starts, dups: set<TaskId>, now: real, tasks: seq<Task>,
                                             t: Task)
    ensures var running := RunningTasks(tasks);
            t in Stragglers(c, starts, dups, now, tasks) <==>
              && t in tasks && t.state == Running && |running| >= 2
              && t.id in starts && starts[t.id] != 0.0 && t.id !in dups
              && |Runtimes(starts, now, running)| > 0
              && now - starts[t.id] > c.minRuntime
              && now - starts[t.id] > c.multiplier * Median(Runtimes(starts, now, running))
  {
    var running := RunningTasks(tasks);
    var runtimes := Runtimes(starts, now, running);
    if |running| >= 2 && |runtimes| > 0 {
      SlowMember(starts, dups, now, Threshold(c, runtimes), running, t);
      assert c.multiplier * Median(runtimes) == Median(runtimes) * c.multiplier;
    }
  }
}
