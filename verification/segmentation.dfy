/**
 * Splitting the logged power samples into pump runs. The samples are the
 * timestamps (whole seconds) of the power log, sorted ascending; a new run
 * begins wherever the gap to the previous sample exceeds 30 seconds.
 */
module Segmentation {

  /** The gap given to the first sample, which has no predecessor. */
  const GapFillSeconds: int := 9999
  /** A gap strictly longer than this starts a new run. */
  const RunGapSeconds: int := 30

  predicate Sorted(ts: seq<int>) {
    forall i, j :: 0 <= i < j < |ts| ==> ts[i] <= ts[j]
  }

  predicate StrictlyIncreasing(xs: seq<int>) {
    forall i, j :: 0 <= i < j < |xs| ==> xs[i] < xs[j]
  }

  /** The `time_diff` column: the gap to the previous sample, or the fill value. */
  function TimeDiff(ts: seq<int>, i: nat): (gap: int)
    requires i < |ts|
  {
    if i == 0 then GapFillSeconds else ts[i] - ts[i - 1]
  }

  /** The `new_run` column at sample `i`. */
  predicate NewRun(ts: seq<int>, i: nat)
    requires i < |ts|
  {
    TimeDiff(ts, i) > RunGapSeconds
  }

  /** The whole `new_run` column. */
  function NewRunFlags(ts: seq<int>): (flags: seq<bool>)
    ensures |flags| == |ts|
    ensures |ts| > 0 ==> flags[0]
    ensures forall i :: 0 < i < |ts| ==> (flags[i] <==> ts[i] - ts[i - 1] > RunGapSeconds)
  {
    seq(|ts|, i requires 0 <= i < |ts| => NewRun(ts, i))
  }

  /** How many runs begin among the first `n` samples. */
  function RunsBegun(ts: seq<int>, n: nat): (c: nat)
    requires n <= |ts|
    ensures c <= n
    ensures n > 0 ==> c >= 1
  {
    if n == 0 then 0 else RunsBegun(ts, n - 1) + (if NewRun(ts, n - 1) then 1 else 0)
  }

  /** The `run_id` of sample `i`: the running count of `new_run` up to it. */
  function RunId(ts: seq<int>, i: nat): (id: nat)
    requires i < |ts|
  {
    RunsBegun(ts, i + 1)
  }

  lemma {:induction false} RunsBegunMonotone(ts: seq<int>, m: nat, n: nat)
    requires m <= n <= |ts|
    ensures RunsBegun(ts, m) <= RunsBegun(ts, n)
    decreases n - m
  {
    if m < n {
      RunsBegunMonotone(ts, m, n - 1);
    }
  }

  /**
   * The `run_id` column computed as `make_dataset.py` does, by a cumulative sum of
   * the `new_run` flags.
   */
  method RunIds(ts: seq<int>) returns (ids: seq<nat>)
    ensures |ids| == |ts|
    ensures |ts| > 0 ==> ids[0] == 1
    ensures forall i :: 0 < i < |ids| ==> ids[i] == ids[i - 1] + (if NewRun(ts, i) then 1 else 0)
    ensures forall i, j :: 0 <= i <= j < |ids| ==> ids[i] <= ids[j]
    ensures forall i :: 0 <= i < |ids| ==> ids[i] == RunId(ts, i)
  {
    ids := [];
    var count: nat := 0;
    var i := 0;
    while i < |ts|
      invariant 0 <= i <= |ts|
      invariant |ids| == i
      invariant count == RunsBegun(ts, i)
      invariant forall k :: 0 <= k < i ==> ids[k] == RunId(ts, k)
    {
      if NewRun(ts, i) {
        count := count + 1;
      }
      ids := ids + [count];
      i := i + 1;
    }
    forall k, l | 0 <= k <= l < |ids|
      ensures ids[k] <= ids[l]
    {
      RunsBegunMonotone(ts, k + 1, l + 1);
    }
  }

  /** The index of the sample that begins the run containing sample `i`. */
  function RunHead(ts: seq<int>, i: nat): (h: nat)
    requires i < |ts|
    ensures h <= i && NewRun(ts, h)
    ensures forall j :: h < j <= i ==> !NewRun(ts, j)
    ensures RunId(ts, h) == RunId(ts, i)
  {
    if NewRun(ts, i) then i else RunHead(ts, i - 1)
  }

  /** The timestamps of the samples, among the first `n`, that begin a run. */
  function StartsAmong(ts: seq<int>, n: nat): (starts: seq<int>)
    requires n <= |ts|
    ensures |starts| == RunsBegun(ts, n)
  {
    if n == 0 then []
    else StartsAmong(ts, n - 1) + (if NewRun(ts, n - 1) then [ts[n - 1]] else [])
  }

  /**
   * The first timestamp of each run, in run order: `run_starts`. `make_dataset.py`
   * takes the minimum of each `run_id` group and sorts the result; for
   * sorted samples that is the first sample of each run, already in order,
   * as the lemmas below show.
   */
  function RunStarts(ts: seq<int>): (starts: seq<int>)
    ensures |ts| > 0 ==> |starts| >= 1 && starts[0] == ts[0]
  {
    var starts := StartsAmong(ts, |ts|);
    assert |ts| > 0 ==> |starts| >= 1 && starts[0] == ts[0] by {
      if |ts| > 0 {
        FirstStartIsFirstSample(ts, |ts|);
      }
    }
    starts
  }

  lemma {:induction false} FirstStartIsFirstSample(ts: seq<int>, n: nat)
    requires 0 < n <= |ts|
    ensures |StartsAmong(ts, n)| >= 1 && StartsAmong(ts, n)[0] == ts[0]
  {
    if n > 1 {
      FirstStartIsFirstSample(ts, n - 1);
    }
  }

  /** Every start is a sample that begins a run, and it is that run's `n`th start. */
  lemma {:induction false} StartIsRunBeginning(ts: seq<int>, n: nat, k: nat)
    requires n <= |ts| && k < |StartsAmong(ts, n)|
    ensures exists h :: 0 <= h < n && NewRun(ts, h) && RunId(ts, h) == k + 1 && StartsAmong(ts, n)[k] == ts[h]
  {
    var prev := StartsAmong(ts, n - 1);
    if k < |prev| {
      StartIsRunBeginning(ts, n - 1, k);
      var h :| 0 <= h < n - 1 && NewRun(ts, h) && RunId(ts, h) == k + 1 && prev[k] == ts[h];
      assert StartsAmong(ts, n)[k] == prev[k];
    } else {
      assert NewRun(ts, n - 1) && RunId(ts, n - 1) == k + 1;
    }
  }

  /** The run a sample belongs to starts at the first sample of that run. */
  lemma {:induction false} StartOfRun(ts: seq<int>, n: nat, i: nat)
    requires i < n <= |ts|
    ensures 1 <= RunId(ts, i) <= |StartsAmong(ts, n)|
    ensures StartsAmong(ts, n)[RunId(ts, i) - 1] == ts[RunHead(ts, i)]
  {
    RunsBegunMonotone(ts, i + 1, n);
    if i < n - 1 {
      StartOfRun(ts, n - 1, i);
      RunsBegunMonotone(ts, i + 1, n - 1);
    } else if !NewRun(ts, i) {
      StartOfRun(ts, n - 1, i - 1);
    }
  }

  /**
   * For sorted samples the start of each run is the smallest timestamp of its
   * `run_id` group, and is the timestamp of a sample of that group: it is the
   * group minimum `make_dataset.py` computes.
   */
  lemma {:induction false} RunStartIsGroupMinimum(ts: seq<int>, i: nat)
    requires Sorted(ts) && i < |ts|
    ensures 1 <= RunId(ts, i) <= |RunStarts(ts)|
    ensures RunId(ts, RunHead(ts, i)) == RunId(ts, i)
    ensures RunStarts(ts)[RunId(ts, i) - 1] == ts[RunHead(ts, i)]
    ensures forall j :: 0 <= j < |ts| && RunId(ts, j) == RunId(ts, i) ==>
      RunStarts(ts)[RunId(ts, i) - 1] <= ts[j]
  {
    StartOfRun(ts, |ts|, i);
    var h := RunHead(ts, i);
    forall j | 0 <= j < |ts| && RunId(ts, j) == RunId(ts, i)
      ensures ts[h] <= ts[j]
    {
      if j < h {
        RunsBegunMonotone(ts, j + 1, h);
      }
    }
  }

  /**
   * For sorted samples the run starts are more than 30 seconds apart, so in
   * particular strictly increasing: sorting them changes nothing.
   */
  lemma {:induction false} RunStartsSpreadOut(ts: seq<int>, n: nat)
    requires Sorted(ts) && n <= |ts|
    ensures forall a, b :: 0 <= a < b < |StartsAmong(ts, n)| ==>
      StartsAmong(ts, n)[b] - StartsAmong(ts, n)[a] > RunGapSeconds
  {
    if n > 0 {
      RunStartsSpreadOut(ts, n - 1);
      var prev := StartsAmong(ts, n - 1);
      var cur := StartsAmong(ts, n);
      if NewRun(ts, n - 1) {
        forall a, b | 0 <= a < b < |cur|
          ensures cur[b] - cur[a] > RunGapSeconds
        {
          if b == |prev| {
            StartIsRunBeginning(ts, n - 1, a);
            assert cur[a] == prev[a];
          } else {
            assert cur[a] == prev[a] && cur[b] == prev[b];
          }
        }
      } else {
        assert cur == prev;
      }
    }
  }

  lemma {:induction false} RunStartsIncrease(ts: seq<int>)
    requires Sorted(ts)
    ensures StrictlyIncreasing(RunStarts(ts))
  {
    RunStartsSpreadOut(ts, |ts|);
  }
}
