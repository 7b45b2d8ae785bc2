// When repeated rejections of the admin credential stop looking like a flaky node: a
// counter and a timestamp, proved to be what the whole history of calls says.
module RotationDetection {
  import opened Wrappers

  datatype Event = CallerRejected | ProbeRejected(at: int) | Accepted

  // The rejected probes since the node last accepted a call, oldest first.
  function ProbesSince(h: seq<Event>): seq<int> {
    if h == [] then [] else
      match h[|h| - 1]
      case Accepted => []
      case CallerRejected => ProbesSince(h[..|h| - 1])
      case ProbeRejected(at) => ProbesSince(h[..|h| - 1]) + [at]
  }

  predicate RejectedSince(h: seq<Event>) {
    h != [] && !h[|h| - 1].Accepted? && (h[|h| - 1].CallerRejected? || RejectedSince(h[..|h| - 1]))
  }

  // A caller was rejected and nothing has been accepted since.
  lemma {:induction false} RejectedSinceMeans(h: seq<Event>)
    ensures RejectedSince(h) <==> exists i :: Outstanding(h, i)
  {
    if h != [] {
      var last := |h| - 1;
      RejectedSinceMeans(h[..last]);
      if h[last].CallerRejected? { assert Outstanding(h, last); }
      assert !h[last].Accepted? ==> forall i :: 0 <= i < last ==> (Outstanding(h, i) <==> Outstanding(h[..last], i));
    }
  }

  predicate Outstanding(h: seq<Event>, i: int) {
    0 <= i < |h| && h[i].CallerRejected? && forall j :: i < j < |h| ==> !h[j].Accepted?
  }

  // The probes rejected since the last success, oldest first: where they stand in the
  // history, and that nothing else counts.
  lemma {:induction false} ProbesAreSinceTheSuccess(h: seq<Event>, n: nat)
    requires n <= |h| && (n > 0 ==> h[n - 1].Accepted?)
    requires forall i :: n <= i < |h| ==> !h[i].Accepted?
    ensures ProbesSince(h) == Ats(h[n..])
  {
    if n < |h| {
      var last := |h| - 1;
      ProbesAreSinceTheSuccess(h[..last], n);
      assert h[n..][..last - n] == h[..last][n..];
    }
  }

  function Ats(h: seq<Event>): seq<int> {
    if h == [] then [] else
      Ats(h[..|h| - 1]) + if h[|h| - 1].ProbeRejected? then [h[|h| - 1].at] else []
  }

  // The last k probes follow one another with no gap longer than the window.
  predicate IsRun(ts: seq<int>, k: int, window: nat) {
    0 <= k <= |ts| && forall i :: |ts| - k < i < |ts| ==> Near(ts, i, window)
  }

  // The probe at i came within the window of the one before it.
  predicate Near(ts: seq<int>, i: int, window: nat)
    requires 0 < i < |ts|
  {
    ts[i] - ts[i - 1] <= window
  }

  lemma RunMeans(ts: seq<int>, k: nat, window: nat)
    requires k <= |ts|
    ensures IsRun(ts, k, window) <==> forall i :: |ts| - k < i < |ts| ==> ts[i] - ts[i - 1] <= window
  {
    assert forall i :: 0 < i < |ts| ==> (Near(ts, i, window) <==> ts[i] - ts[i - 1] <= window);
  }

  predicate LongestRun(ts: seq<int>, k: nat, window: nat) {
    IsRun(ts, k, window) && (k == |ts| || !IsRun(ts, k + 1, window))
  }

  lemma ShorterRuns(ts: seq<int>, k: nat, window: nat, m: nat)
    requires LongestRun(ts, k, window)
    ensures IsRun(ts, m, window) <==> m <= k
  {
    if m > k {
      assert IsRun(ts, m, window) ==> IsRun(ts, k + 1, window);
    }
  }

  // The longest run grows by the new probe, or starts again at it.
  lemma NextRun(ts: seq<int>, k: nat, window: nat, t: int)
    requires LongestRun(ts, k, window)
    ensures var near := ts == [] || t - ts[|ts| - 1] <= window;
            LongestRun(ts + [t], if near then k + 1 else 1, window)
  {
    if ts == [] || t - ts[|ts| - 1] <= window {
      RunGoesOn(ts, k, window, t);
    } else {
      RunStartsAgain(ts, window, t);
    }
  }

  lemma RunGoesOn(ts: seq<int>, k: nat, window: nat, t: int)
    requires LongestRun(ts, k, window) && (ts == [] || t - ts[|ts| - 1] <= window)
    ensures LongestRun(ts + [t], k + 1, window)
  {
    var us := ts + [t];
    assert forall i :: 0 < i < |ts| ==> Near(us, i, window) == Near(ts, i, window);
    assert ts != [] ==> Near(us, |ts|, window);
    if k < |ts| {
      var i :| |ts| - (k + 1) < i < |ts| && !Near(ts, i, window);
      assert !Near(us, i, window);
    }
  }

  lemma RunStartsAgain(ts: seq<int>, window: nat, t: int)
    requires ts != [] && t - ts[|ts| - 1] > window
    ensures LongestRun(ts + [t], 1, window)
  {
    var us := ts + [t];
    assert !Near(us, |ts|, window);
  }

  // However many rejections callers run into, they never move the run.
  lemma {:induction false} CallersDoNotCount(h: seq<Event>, n: nat)
    ensures ProbesSince(h + seq(n, _ => CallerRejected)) == ProbesSince(h)
  {
    var more := h + seq(n, _ => CallerRejected);
    if n == 0 {
      assert more == h;
    } else {
      assert more[..|more| - 1] == h + seq(n - 1, _ => CallerRejected);
      CallersDoNotCount(h, n - 1);
    }
  }

  const DEFAULT_WINDOW: nat := 30
  const DEFAULT_THRESHOLD: nat := 3

  class Detector {
    const window: nat
    const threshold: nat
    var armed: bool
    var consecutive: nat
    var lastProbe: Option<int>

    ghost var history: seq<Event>

    ghost predicate Valid()
      reads this
    {
      var ts := ProbesSince(history);
      && window > 0 && threshold > 0
      && armed == RejectedSince(history)
      && LongestRun(ts, consecutive, window)
      && lastProbe == if ts == [] then None else Some(ts[|ts| - 1])
    }

    // Values that are not positive take the defaults.
    constructor (window: int, threshold: int)
      ensures Valid() && history == []
      ensures this.window == if window <= 0 then 30 else window
      ensures this.threshold == if threshold <= 0 then 3 else threshold
    {
      this.window := if window <= 0 then DEFAULT_WINDOW else window;
      this.threshold := if threshold <= 0 then DEFAULT_THRESHOLD else threshold;
      armed, consecutive, lastProbe, history := false, 0, None, [];
    }

    method Rejected()
      requires Valid()
      modifies this
      ensures Valid() && history == old(history) + [CallerRejected]
      ensures armed && consecutive == old(consecutive) && lastProbe == old(lastProbe)
    {
      armed := true;
      history := history + [CallerRejected];
    }

    // Trips exactly when the probes since the last success end in a run of at least the
    // threshold's length, the new one included.
    method ProbeFailed(now: int) returns (run: nat, tripped: bool)
      requires Valid()
      modifies this
      ensures Valid() && history == old(history) + [ProbeRejected(now)]
      ensures LongestRun(ProbesSince(history), run, window) && run == consecutive >= 1
      ensures tripped <==> IsRun(ProbesSince(history), threshold, window)
      ensures tripped ==> threshold <= |ProbesSince(history)|
      ensures var ts := ProbesSince(history);
              tripped ==> forall i :: |ts| - threshold < i < |ts| ==> ts[i] - ts[i - 1] <= window
      ensures var ts := ProbesSince(history);
              !tripped && threshold <= |ts| ==> exists i :: |ts| - threshold < i < |ts| && ts[i] - ts[i - 1] > window
      ensures armed == old(armed)
    {
      NextRun(ProbesSince(history), consecutive, window, now);
      if lastProbe.Some? && now - lastProbe.value > window {
        consecutive := 0;
      }
      lastProbe := Some(now);
      consecutive := consecutive + 1;
      history := history + [ProbeRejected(now)];
      run, tripped := consecutive, consecutive >= threshold;
      ShorterRuns(ProbesSince(history), consecutive, window, threshold);
      if threshold <= |ProbesSince(history)| { RunMeans(ProbesSince(history), threshold, window); }
    }

    method Success()
      requires Valid()
      modifies this
      ensures Valid() && history == old(history) + [Accepted]
      ensures !armed && consecutive == 0 && lastProbe.None?
    {
      armed, consecutive, lastProbe := false, 0, None;
      history := history + [Accepted];
    }

    // Whether a rejection is outstanding: one has been seen and no success since.
    method Armed() returns (yes: bool)
      requires Valid()
      ensures yes <==> exists i :: Outstanding(history, i)
    {
      RejectedSinceMeans(history);
      yes := armed;
    }

    method Counting() returns (yes: bool)
      requires Valid()
      ensures yes <==> ProbesSince(history) != []
    {
      yes := consecutive > 0;
    }
  }
}
