/** When a target is due (internal/agent/probe_scheduler.go). */
module ProbeScheduling {
  import opened ProbeBudget

  /** The interval of a target, in nanoseconds. */
  function Interval(t: ProbeTarget): int {
    NormalizedIntervalSec(t.intervalSec) * 1_000_000_000
  }

  predicate TargetDue(last: map<string, int>, t: ProbeTarget, now: int) {
    t.id in last ==> now >= last[t.id] + Interval(t)
  }

  /** In plain numbers: never completed, or as many seconds ago as the interval
      says, a minute where it says nothing, between five seconds and an hour. */
  lemma DueByNumbers(last: map<string, int>, t: ProbeTarget, now: int)
    ensures TargetDue(last, t, now) <==>
            || t.id !in last
            || (t.intervalSec <= 0 && now - last[t.id] >= 60 * 1_000_000_000)
            || (0 < t.intervalSec < 5 && now - last[t.id] >= 5 * 1_000_000_000)
            || (5 <= t.intervalSec <= 3600 && now - last[t.id] >= t.intervalSec * 1_000_000_000)
            || (t.intervalSec > 3600 && now - last[t.id] >= 3600 * 1_000_000_000)
  {
  }

  /** The due targets, in order. */
  function DueTargets(last: map<string, int>, targets: seq<ProbeTarget>, now: int): (r: seq<ProbeTarget>)
    ensures forall t :: t in r <==> t in targets && TargetDue(last, t, now)
    ensures |r| <= |targets|
  {
    if targets == [] then []
    else
      var t := targets[|targets| - 1];
      DueTargets(last, targets[..|targets| - 1], now) + (if TargetDue(last, t, now) then [t] else [])
  }

  /** One more target comes last, or not at all. */
  lemma LastDue(last: map<string, int>, init: seq<ProbeTarget>, t: ProbeTarget, now: int)
    ensures DueTargets(last, init + [t], now) == DueTargets(last, init, now) + (if TargetDue(last, t, now) then [t] else [])
  {
    hide TargetDue;
    assert (init + [t])[..|init|] == init;
  }

  /** Order and repetitions are kept: the due targets of two lists in a row are
      those of the one and then those of the other. */
  lemma {:induction false} DueOfSum(last: map<string, int>, a: seq<ProbeTarget>, b: seq<ProbeTarget>, now: int)
    ensures DueTargets(last, a + b, now) == DueTargets(last, a, now) + DueTargets(last, b, now)
  {
    hide TargetDue, DueTargets;
    if b == [] {
      DueOfNone(last, now);
      assert a + b == a;
    } else {
      var init, t := b[..|b| - 1], b[|b| - 1];
      DueOfSum(last, a, init, now);
      LastDue(last, a + init, t, now);
      LastDue(last, init, t, now);
      assert a + b == (a + init) + [t] && b == init + [t];
    }
  }

  lemma DueOfNone(last: map<string, int>, now: int)
    ensures DueTargets(last, [], now) == []
  {
  }

  /** The completion times after a batch was completed at `now`. */
  function Marked(last: map<string, int>, targets: seq<ProbeTarget>, now: int): (r: map<string, int>)
    ensures forall id :: id in r <==> id in last || (id != "" && exists t :: t in targets && t.id == id)
    ensures forall id :: id in r ==> r[id] == if id != "" && (exists t :: t in targets && t.id == id) then now else last[id]
  {
    if targets == [] then last
    else
      var before := Marked(last, targets[..|targets| - 1], now);
      var t := targets[|targets| - 1];
      assert targets == targets[..|targets| - 1] + [t];
      if t.id == "" then before else before[t.id := now]
  }

  /** A target that was just completed is due again exactly one interval
      later; the others are as due as before. */
  lemma DueAfterMark(last: map<string, int>, batch: seq<ProbeTarget>, t: ProbeTarget, at: int, now: int)
    ensures TargetDue(Marked(last, batch, at), t, now) <==>
            if t.id != "" && (exists b :: b in batch && b.id == t.id) then now >= at + Interval(t)
            else TargetDue(last, t, now)
  {
  }

  class ProbeScheduler {
    var lastCompleted: map<string, int>

    constructor ()
      ensures lastCompleted == map[]
    {
      lastCompleted := map[];
    }

    method Due(targets: seq<ProbeTarget>, now: int) returns (due: seq<ProbeTarget>)
      ensures due == DueTargets(lastCompleted, targets, now)
    {
      due := [];
      for k := 0 to |targets|
        invariant due == DueTargets(lastCompleted, targets[..k], now)
      {
        assert targets[..k + 1][..k] == targets[..k];
        var target := targets[k];
        if target.id !in lastCompleted
           || now >= lastCompleted[target.id] + NormalizedIntervalSec(target.intervalSec) * 1_000_000_000
        {
          due := due + [target];
        }
      }
      assert targets[..|targets|] == targets;
    }

    method MarkCompleted(targets: seq<ProbeTarget>, now: int)
      modifies this
      ensures lastCompleted == Marked(old(lastCompleted), targets, now)
    {
      for k := 0 to |targets|
        invariant lastCompleted == Marked(old(lastCompleted), targets[..k], now)
      {
        assert targets[..k + 1][..k] == targets[..k];
        var target := targets[k];
        if target.id == "" {
          continue;
        }
        lastCompleted := lastCompleted[target.id := now];
      }
      assert targets[..|targets|] == targets;
    }
  }
}
