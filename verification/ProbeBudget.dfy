/** Probe target sanitation and the greedy per-run budget
    (internal/agent/probe.go). */
module ProbeBudget {
  import opened GreedyBudget
  import opened Text

  /** `port` is a pointer in Go; only the number behind it is ever compared. */
  datatype ProbeTarget = ProbeTarget(
    id: string, name: string, kind: string, address: string, port: Option<int>,
    count: int, timeoutMS: int, intervalSec: int)

  const MAX_PROBE_TARGETS: nat := 32
  const MAX_PROBE_COUNT: nat := 32
  const DEFAULT_TIMEOUT_MS := 1000
  const MIN_TIMEOUT_MS := 100
  const MAX_TIMEOUT_MS := 5000
  const DEFAULT_INTERVAL_SEC := 60
  const MIN_INTERVAL_SEC := 5
  const MAX_INTERVAL_SEC := 3600
  const MAX_SAMPLES_PER_RUN := 1024
  const MAX_TARGET_BUDGET_MS: nat := 60_000
  const MAX_NODE_BUDGET_MS: nat := 120_000
  const DRAWABLE_LATENCY_CAP_MS := 5000
  const PING_GRACE_MS := 250

  function NormalizedCount(count: int): int {
    if count <= 0 then 1 else if count > MAX_PROBE_COUNT then MAX_PROBE_COUNT else count
  }

  function NormalizedTimeoutMS(timeoutMS: int): int {
    if timeoutMS <= 0 then DEFAULT_TIMEOUT_MS
    else if timeoutMS < MIN_TIMEOUT_MS then MIN_TIMEOUT_MS
    else if timeoutMS > MAX_TIMEOUT_MS then MAX_TIMEOUT_MS
    else timeoutMS
  }

  function NormalizedIntervalSec(intervalSec: int): int {
    if intervalSec <= 0 then DEFAULT_INTERVAL_SEC
    else if intervalSec < MIN_INTERVAL_SEC then MIN_INTERVAL_SEC
    else if intervalSec > MAX_INTERVAL_SEC then MAX_INTERVAL_SEC
    else intervalSec
  }

  function ObservationTimeoutMS(timeoutMS: int): int {
    if timeoutMS <= 0 then DEFAULT_TIMEOUT_MS
    else if timeoutMS > DRAWABLE_LATENCY_CAP_MS then DRAWABLE_LATENCY_CAP_MS
    else timeoutMS
  }

  /** Whether lower-casing `c` gives `lower`, for the letters of "ping" and
      "icmp"; U+0130 is the one character outside ASCII that lower-cases to one
      of them (to 'i'). */
  predicate LowersTo(c: char, lower: char) {
    c == lower
    || ('A' <= c <= 'Z' && c as int + 32 == lower as int)
    || (c == '\U{130}' && lower == 'i')
  }

  predicate EqualsLowered(s: string, word: string) {
    if s == "" || word == "" then s == word
    else LowersTo(s[0], word[0]) && EqualsLowered(s[1..], word[1..])
  }

  predicate UsesPingUtility(kind: string) {
    var trimmed := Trim(kind);
    EqualsLowered(trimmed, "ping") || EqualsLowered(trimmed, "icmp")
  }

  /** Worst-case milliseconds of one sample: the time-out, plus a grace for
      the targets that run the ping utility. */
  function UnitMS(kind: string, timeoutMS: int): (ms: int)
    ensures MIN_TIMEOUT_MS <= ms <= MAX_TIMEOUT_MS + PING_GRACE_MS
  {
    var budget := ObservationTimeoutMS(NormalizedTimeoutMS(timeoutMS));
    if UsesPingUtility(kind) then budget + PING_GRACE_MS else budget
  }

  function SampleBudgetMS(target: ProbeTarget): int {
    UnitMS(target.kind, target.timeoutMS)
  }

  // ---------------------------------------------------------------- sanitize

  function CappedCount(count: int, unitMS: int): int
    requires unitMS >= 1
  {
    Min(NormalizedCount(count), MAX_TARGET_BUDGET_MS / unitMS)
  }

  function SanitizeOne(target: ProbeTarget): ProbeTarget {
    var timeoutMS := NormalizedTimeoutMS(target.timeoutMS);
    target.(count := CappedCount(target.count, UnitMS(target.kind, timeoutMS)),
            timeoutMS := timeoutMS,
            intervalSec := NormalizedIntervalSec(target.intervalSec))
  }

  function Sanitized(targets: seq<ProbeTarget>): (r: seq<ProbeTarget>)
    ensures |r| == Min(|targets|, MAX_PROBE_TARGETS)
    ensures forall i :: 0 <= i < |r| ==> r[i] == SanitizeOne(targets[i])
  {
    var kept := if |targets| > MAX_PROBE_TARGETS then targets[..MAX_PROBE_TARGETS] else targets;
    seq(|kept|, i requires 0 <= i < |kept| => SanitizeOne(kept[i]))
  }

  /** A target whose every number is within the Agent-side limits. */
  predicate Bounded(t: ProbeTarget) {
    && 1 <= t.count <= MAX_PROBE_COUNT
    && MIN_TIMEOUT_MS <= t.timeoutMS <= MAX_TIMEOUT_MS
    && MIN_INTERVAL_SEC <= t.intervalSec <= MAX_INTERVAL_SEC
    && Times(t.count, SampleBudgetMS(t)) <= MAX_TARGET_BUDGET_MS
  }

  predicate AllBounded(targets: seq<ProbeTarget>) {
    forall i :: 0 <= i < |targets| ==> Bounded(targets[i])
  }

  /** Sanitation leaves exactly the bounded targets as they are. */
  lemma SanitizeFixesExactlyBounded(t: ProbeTarget)
    ensures Bounded(SanitizeOne(t))
    ensures SanitizeOne(t) == t <==> Bounded(t)
  {
    var s := SanitizeOne(t);
    var unit := UnitMS(t.kind, NormalizedTimeoutMS(t.timeoutMS));
    FitsQuotient(1, unit, MAX_TARGET_BUDGET_MS);
    FitsQuotient(s.count, unit, MAX_TARGET_BUDGET_MS);
    if t.count >= 0 { FitsQuotient(t.count, unit, MAX_TARGET_BUDGET_MS); }
  }

  lemma BoundedSanitizeUnchanged(targets: seq<ProbeTarget>)
    requires AllBounded(targets) && |targets| <= MAX_PROBE_TARGETS
    ensures Sanitized(targets) == targets
  {
    forall i | 0 <= i < |targets| ensures Sanitized(targets)[i] == targets[i] {
      SanitizeFixesExactlyBounded(targets[i]);
    }
  }

  lemma SanitizedBounded(targets: seq<ProbeTarget>)
    ensures AllBounded(Sanitized(targets))
  {
    forall i | 0 <= i < |Sanitized(targets)| ensures Bounded(Sanitized(targets)[i]) {
      SanitizeFixesExactlyBounded(targets[i]);
    }
  }

  /** Sanitizing a sanitized list changes nothing: the fetch and the manager
      both sanitize, and agree. */
  lemma SanitizeIdempotent(targets: seq<ProbeTarget>)
    ensures Sanitized(Sanitized(targets)) == Sanitized(targets)
  {
    SanitizedBounded(targets);
    BoundedSanitizeUnchanged(Sanitized(targets));
  }

  method SanitizeProbeTargets(targets: seq<ProbeTarget>) returns (sanitized: seq<ProbeTarget>)
    ensures sanitized == Sanitized(targets)
  {
    if |targets| == 0 {
      return [];
    }
    var kept := targets;
    if |kept| > MAX_PROBE_TARGETS {
      kept := kept[..MAX_PROBE_TARGETS];
    }
    sanitized := [];
    for k := 0 to |kept|
      invariant |sanitized| == k
      invariant forall i :: 0 <= i < k ==> sanitized[i] == SanitizeOne(targets[i])
    {
      var target := kept[k];
      target := target.(count := NormalizedCount(target.count));
      target := target.(timeoutMS := NormalizedTimeoutMS(target.timeoutMS));
      target := target.(intervalSec := NormalizedIntervalSec(target.intervalSec));
      var maxCount := MAX_TARGET_BUDGET_MS / SampleBudgetMS(target);
      if target.count > maxCount {
        target := target.(count := maxCount);
      }
      assert target == SanitizeOne(targets[k]);
      sanitized := sanitized + [target];
    }
  }

  // ------------------------------------------------------- in plain numbers

  /** The texts that lower-case to "ping" and to "icmp". */
  predicate PingText(s: string) {
    && |s| == 4
    && ((s[0] in "pP" && s[1] in "iI\U{130}" && s[2] in "nN" && s[3] in "gG")
        || (s[0] in "iI\U{130}" && s[1] in "cC" && s[2] in "mM" && s[3] in "pP"))
  }

  lemma {:induction false} LoweredIff(s: string, word: string)
    ensures EqualsLowered(s, word) <==> |s| == |word| && forall i :: 0 <= i < |s| ==> LowersTo(s[i], word[i])
  {
    if s != "" && word != "" {
      LoweredIff(s[1..], word[1..]);
      if |s| == |word| && LowersTo(s[0], word[0]) && forall i :: 0 <= i < |s[1..]| ==> LowersTo(s[1..][i], word[1..][i]) {
        forall i | 0 <= i < |s| ensures LowersTo(s[i], word[i]) {
          assert i > 0 ==> s[i] == s[1..][i - 1] && word[i] == word[1..][i - 1];
        }
      }
    }
  }

  lemma PingByText(kind: string)
    ensures UsesPingUtility(kind) <==> PingText(Trim(kind))
  {
    var s := Trim(kind);
    hide Trim, EqualsLowered;
    LoweredIff(s, "ping");
    LoweredIff(s, "icmp");
    if |s| == 4 {
      FourLetters(s, "ping");
      FourLetters(s, "icmp");
    }
  }

  lemma FourLetters(s: string, word: string)
    requires |s| == |word| == 4
    ensures (forall i :: 0 <= i < |s| ==> LowersTo(s[i], word[i]))
            <==> LowersTo(s[0], word[0]) && LowersTo(s[1], word[1]) && LowersTo(s[2], word[2]) && LowersTo(s[3], word[3])
  {
    hide LowersTo;
  }

  /** `x`, or the nearer of the two ends. */
  predicate Nearest(n: int, x: int, low: int, high: int) {
    && low <= n <= high
    && (low <= x <= high ==> n == x)
    && (x < low ==> n == low)
    && (x > high ==> n == high)
  }

  /** What one sample of a target costs at most, in milliseconds. */
  function SampleMS(timeoutMS: int, kind: string): int {
    timeoutMS + (if PingText(Trim(kind)) then 250 else 0)
  }

  /** The numbers of a sanitized target: the nearest within the limits, or the
      usual ones where none were given; and the largest count up to the one asked
      for that costs no more than a minute. */
  lemma SanitizedNumbers(t: ProbeTarget)
    ensures var s := SanitizeOne(t);
            && (s.id, s.name, s.kind, s.address, s.port) == (t.id, t.name, t.kind, t.address, t.port)
            && (if t.timeoutMS <= 0 then s.timeoutMS == 1000 else Nearest(s.timeoutMS, t.timeoutMS, 100, 5000))
            && (if t.intervalSec <= 0 then s.intervalSec == 60 else Nearest(s.intervalSec, t.intervalSec, 5, 3600))
            && var sampleMS := SampleMS(s.timeoutMS, s.kind);
               SampleBudgetMS(s) == sampleMS
               && if s.count * sampleMS <= 60_000 < (s.count + 1) * sampleMS
                  then 1 <= s.count <= 32 && (s.count == 1 || s.count <= t.count)
                  else s.count * sampleMS <= 60_000 && Nearest(s.count, t.count, 1, 32)
  {
    PingByText(t.kind);
    var s := SanitizeOne(t);
    var unit := UnitMS(t.kind, NormalizedTimeoutMS(t.timeoutMS));
    hide PingText, Trim, UsesPingUtility;
    var asked := NormalizedCount(t.count);
    FitsQuotient(1, unit, MAX_TARGET_BUDGET_MS);
    FitsQuotient(s.count, unit, MAX_TARGET_BUDGET_MS);
    FitsQuotient(s.count + 1, unit, MAX_TARGET_BUDGET_MS);
    TimesIsProduct(s.count, unit);
    TimesIsProduct(s.count + 1, unit);
  }

  /** What all samples of these targets cost at most. */
  function TotalMS(targets: seq<ProbeTarget>): int {
    if targets == [] then 0 else targets[0].count * SampleMS(targets[0].timeoutMS, targets[0].kind) + TotalMS(targets[1..])
  }

  // ------------------------------------------------------------------- limit

  function LoadOf(t: ProbeTarget): Load {
    Load(t.count, SampleBudgetMS(t))
  }

  function Loads(targets: seq<ProbeTarget>): (r: seq<Load>)
    ensures |r| == |targets|
    ensures forall i :: 0 <= i < |r| ==> r[i] == LoadOf(targets[i])
  {
    seq(|targets|, i requires 0 <= i < |targets| => LoadOf(targets[i]))
  }

  /** `out` is a prefix of `wanted` in which nothing but counts was changed. */
  predicate CountReducedPrefix(wanted: seq<ProbeTarget>, out: seq<ProbeTarget>) {
    && |out| <= |wanted|
    && forall i :: 0 <= i < |out| ==>
         out[i] == wanted[i].(count := out[i].count) && 1 <= out[i].count <= wanted[i].count
  }

  /** What one run may probe of the sanitized list: a count-reduced prefix that
      spends the node budget greedily. */
  predicate RunShare(wanted: seq<ProbeTarget>, out: seq<ProbeTarget>) {
    && CountReducedPrefix(wanted, out)
    && GreedyFill(Loads(wanted), Loads(out), MAX_NODE_BUDGET_MS)
  }

  /** The list one run probes. Its value is fixed by `LimitIsTheRunShare`. */
  function Limited(targets: seq<ProbeTarget>): seq<ProbeTarget> {
    Fill(Sanitized(targets), MAX_NODE_BUDGET_MS)
  }

  function ShareCount(target: ProbeTarget, leftMS: int): int {
    Min(target.count, leftMS / SampleBudgetMS(target))
  }

  function Fill(targets: seq<ProbeTarget>, leftMS: int): seq<ProbeTarget> {
    if targets == [] || leftMS < SampleBudgetMS(targets[0]) then []
    else
      var count := ShareCount(targets[0], leftMS);
      [targets[0].(count := count)] + Fill(targets[1..], leftMS - Times(count, SampleBudgetMS(targets[0])))
  }

  lemma PrefixOneMore(wanted: seq<ProbeTarget>, given: ProbeTarget, out: seq<ProbeTarget>)
    requires wanted != [] && given == wanted[0].(count := given.count) && 1 <= given.count <= wanted[0].count
    requires CountReducedPrefix(wanted[1..], out)
    ensures CountReducedPrefix(wanted, [given] + out)
  {
  }

  lemma LoadsOfFirst(targets: seq<ProbeTarget>)
    requires targets != []
    ensures Loads(targets) != [] && Loads(targets)[0] == LoadOf(targets[0]) && Loads(targets)[1..] == Loads(targets[1..])
  {
    hide LoadOf;
  }

  lemma {:induction false} FillIsGreedy(wanted: seq<ProbeTarget>, leftMS: nat)
    requires AllBounded(wanted)
    ensures CountReducedPrefix(wanted, Fill(wanted, leftMS))
    ensures GreedyFill(Loads(wanted), Loads(Fill(wanted, leftMS)), leftMS)
  {
    hide UnitMS;
    if wanted != [] {
      LoadsOfFirst(wanted);
      if leftMS >= SampleBudgetMS(wanted[0]) {
        assert Bounded(wanted[0]);
        var want, given := LoadOf(wanted[0]), wanted[0].(count := ShareCount(wanted[0], leftMS));
        QuotientIsLargestFit(want, leftMS);
        var rest := leftMS - Times(given.count, want.unit);
        FillIsGreedy(wanted[1..], rest);
        var tail := Fill(wanted[1..], rest);
        LoadsOfFirst([given] + tail);
        assert ([given] + tail)[1..] == tail;
        hide Loads, CountReducedPrefix;
        PrefixOneMore(wanted, given, tail);
      }
    }
  }

  lemma LoadsPositive(targets: seq<ProbeTarget>)
    requires AllBounded(targets)
    ensures Positive(Loads(targets))
  {
  }

  /** The budget is spent in order: who is given less than wanted, or nothing,
      would have exceeded it with one sample more. */
  predicate SpentInOrder(wanted: seq<ProbeTarget>, out: seq<ProbeTarget>, budget: int) {
    && |out| <= |wanted|
    && TotalMS(out) <= budget
    && (forall i :: 0 <= i < |out| ==>
          && out[i] == wanted[i].(count := out[i].count) && 1 <= out[i].count <= wanted[i].count
          && (out[i].count < wanted[i].count ==> TotalMS(out[..i + 1]) + SampleMS(out[i].timeoutMS, out[i].kind) > budget))
    && (|out| < |wanted| ==> TotalMS(out) + SampleMS(wanted[|out|].timeoutMS, wanted[|out|].kind) > budget)
  }

  lemma BoundedMS(t: ProbeTarget)
    requires Bounded(t)
    ensures SampleBudgetMS(t) == SampleMS(t.timeoutMS, t.kind) && SampleBudgetMS(t) >= 100
  {
    SanitizedNumbers(t);
    SanitizeFixesExactlyBounded(t);
    hide SampleMS, Bounded, SanitizeOne;
  }

  lemma SpentByFirst(wanted: seq<ProbeTarget>, given: ProbeTarget, out: seq<ProbeTarget>, budget: int)
    requires wanted != [] && given == wanted[0].(count := given.count) && 1 <= given.count <= wanted[0].count
    requires given.count < wanted[0].count ==> (given.count + 1) * SampleMS(given.timeoutMS, given.kind) > budget
    requires SpentInOrder(wanted[1..], out, budget - given.count * SampleMS(given.timeoutMS, given.kind))
    ensures SpentInOrder(wanted, [given] + out, budget)
  {
    hide SampleMS;
    var all := [given] + out;
    assert all[1..] == out;
    forall i | 0 <= i < |all|
      ensures all[i] == wanted[i].(count := all[i].count) && 1 <= all[i].count <= wanted[i].count
      ensures all[i].count < wanted[i].count ==> TotalMS(all[..i + 1]) + SampleMS(all[i].timeoutMS, all[i].kind) > budget
    {
      assert all[..i + 1][0] == given;
      if i > 0 {
        assert all[..i + 1][1..] == out[..i];
        assert all[i] == out[i - 1] && wanted[i] == wanted[1..][i - 1];
        assert out[..i - 1 + 1] == out[..i];
      } else {
        assert all[..1] == [given] && [given][1..] == [];
      }
    }
    if |all| < |wanted| {
      assert wanted[|all|] == wanted[1..][|out|];
    }
  }

  lemma {:induction false} FillSpends(wanted: seq<ProbeTarget>, leftMS: nat)
    requires AllBounded(wanted)
    ensures SpentInOrder(wanted, Fill(wanted, leftMS), leftMS)
  {
    hide SpentInOrder, SampleBudgetMS, SampleMS;
    if wanted == [] {
      SpentNothing(wanted, leftMS);
    } else {
      var first := wanted[0];
      BoundedMS(first);
      if leftMS < SampleBudgetMS(first) {
        SpentNothing(wanted, leftMS);
      } else {
        BoundedCount(first);
        FillTurn(wanted, leftMS, [], ShareCount(first, leftMS));
        var count := ShareCount(first, leftMS);
        QuotientIsLargestFit(LoadOf(first), leftMS);
        TimesIsProduct(count, SampleBudgetMS(first));
        TimesIsProduct(count + 1, SampleBudgetMS(first));
        var rest := leftMS - count * SampleBudgetMS(first);
        FillSpends(wanted[1..], rest);
        SpentByFirst(wanted, first.(count := count), Fill(wanted[1..], rest), leftMS);
      }
    }
  }

  lemma SpentNothing(wanted: seq<ProbeTarget>, budget: nat)
    requires wanted != [] ==> SampleMS(wanted[0].timeoutMS, wanted[0].kind) > budget
    ensures SpentInOrder(wanted, [], budget)
  {
    hide SampleMS;
  }

  /** One run spends two minutes, in order, on the sanitized list. */
  lemma LimitSpendsInOrder(targets: seq<ProbeTarget>)
    ensures SpentInOrder(Sanitized(targets), Limited(targets), 120_000)
    ensures |Sanitized(targets)| == if |targets| < 32 then |targets| else 32
  {
    hide SpentInOrder;
    SanitizedBounded(targets);
    FillSpends(Sanitized(targets), 120_000);
  }

  /** `Limited` is the one run share of the sanitized list: it is a run share,
      and every run share is it. */
  lemma LimitIsTheRunShare(targets: seq<ProbeTarget>, out: seq<ProbeTarget>)
    ensures RunShare(Sanitized(targets), out) <==> out == Limited(targets)
  {
    var wanted := Sanitized(targets);
    SanitizedBounded(targets);
    FillIsGreedy(wanted, MAX_NODE_BUDGET_MS);
    if RunShare(wanted, out) {
      LoadsPositive(wanted);
      GreedyFillUnique(Loads(wanted), Loads(out), Loads(Limited(targets)), MAX_NODE_BUDGET_MS);
      SameLoads(wanted, out, Limited(targets));
    }
  }

  lemma SameLoads(wanted: seq<ProbeTarget>, a: seq<ProbeTarget>, b: seq<ProbeTarget>)
    requires CountReducedPrefix(wanted, a) && CountReducedPrefix(wanted, b)
    requires Loads(a) == Loads(b)
    ensures a == b
  {
    assert |Loads(a)| == |Loads(b)|;
    forall i | 0 <= i < |a| ensures a[i] == b[i] {
      assert Loads(a)[i] == LoadOf(a[i]) && Loads(b)[i] == LoadOf(b[i]);
    }
  }

  /** Every number the budgets promise, for every list the Controller may send:
      a count-reduced prefix of the sanitized list, within the per-target, the
      sample and the node budget, and empty only when the list is. */
  lemma LimitBudgets(targets: seq<ProbeTarget>)
    ensures var out := Limited(targets);
            && CountReducedPrefix(Sanitized(targets), out)
            && AllBounded(out)
            && |out| <= MAX_PROBE_TARGETS
            && Samples(Loads(out)) <= MAX_SAMPLES_PER_RUN
            && 0 <= Cost(Loads(out)) <= MAX_NODE_BUDGET_MS
            && (out == [] <==> targets == [])
  {
    var wanted, out := Sanitized(targets), Limited(targets);
    SanitizedBounded(targets);
    LimitIsTheRunShare(targets, out);
    forall i | 0 <= i < |out| ensures Bounded(out[i]) {
      assert Bounded(wanted[i]);
      var unit := SampleBudgetMS(wanted[i]);
      assert SampleBudgetMS(out[i]) == unit;
      TimesMonotone(out[i].count, wanted[i].count, unit);
    }
    LoadsPositive(wanted);
    GreedyCostWithin(Loads(wanted), Loads(out), MAX_NODE_BUDGET_MS);
    SamplesWithin(Loads(out), MAX_PROBE_COUNT);
    TimesIsProduct(|out|, MAX_PROBE_COUNT);
  }

  /** A list that fits the budgets is returned unchanged, so limiting a limited
      list changes nothing: `due`, `ProbeRunTimeout` and `ProbeTargets`, which
      each limit the same batch, all see the same list. */
  lemma LimitIdempotent(targets: seq<ProbeTarget>)
    ensures Limited(Limited(targets)) == Limited(targets)
  {
    var wanted, out := Sanitized(targets), Limited(targets);
    LimitBudgets(targets);
    BoundedSanitizeUnchanged(out);
    LimitIsTheRunShare(targets, out);
    GreedyFillFixedPoint(Loads(wanted), Loads(out), MAX_NODE_BUDGET_MS);
    LimitIsTheRunShare(out, out);
  }

  lemma Reassociate<T>(a: seq<T>, b: seq<T>, c: seq<T>)
    ensures a + (b + c) == (a + b) + c
  {
  }

  /** One turn of the budget loop: the first target takes its share, at least
      one sample, and leaves the rest of the budget to the others. */
  lemma FillTurn(targets: seq<ProbeTarget>, leftMS: nat, done: seq<ProbeTarget>, count: int)
    requires targets != [] && Bounded(targets[0])
    requires SampleBudgetMS(targets[0]) <= leftMS
    requires count == ShareCount(targets[0], leftMS)
    ensures 1 <= count <= MAX_PROBE_COUNT
    ensures 0 <= count * SampleBudgetMS(targets[0]) <= leftMS
    ensures done + Fill(targets, leftMS)
            == done + [targets[0].(count := count)]
               + Fill(targets[1..], leftMS - count * SampleBudgetMS(targets[0]))
  {
    hide UnitMS;
    var want := LoadOf(targets[0]);
    QuotientIsLargestFit(want, leftMS);
    TimesIsProduct(count, want.unit);
    TimesMonotone(0, count, want.unit);
    Reassociate(done, [targets[0].(count := count)], Fill(targets[1..], leftMS - count * want.unit));
  }

  lemma FillStops(targets: seq<ProbeTarget>, leftMS: int)
    requires targets == [] || leftMS < SampleBudgetMS(targets[0])
    ensures Fill(targets, leftMS) == []
  {
  }

  lemma LimitedIs(targets: seq<ProbeTarget>)
    ensures Limited(targets) == Fill(Sanitized(targets), MAX_NODE_BUDGET_MS)
  {
  }

  lemma UnitBounds(target: ProbeTarget)
    ensures MIN_TIMEOUT_MS <= SampleBudgetMS(target)
  {
  }

  /** The budget loop. Its two further guards, the sample cap and the skip of a
      zero count, are dead code. */
  method LimitProbeTargetsForRun(targets: seq<ProbeTarget>) returns (limited: seq<ProbeTarget>)
    ensures limited == Limited(targets)
  {
    hide SampleBudgetMS, Fill, Limited, Bounded, Sanitized;
    var sanitized := SanitizeProbeTargets(targets);
    SanitizedBounded(targets);
    LimitedIs(targets);
    if |sanitized| == 0 {
      FillStops(sanitized, MAX_NODE_BUDGET_MS);
      return [];
    }
    limited := [];
    var remainingSamples, remainingBudgetMS := MAX_SAMPLES_PER_RUN, MAX_NODE_BUDGET_MS as int;
    var k := 0;
    while k < |sanitized|
      invariant 0 <= k <= |sanitized|
      invariant 0 <= remainingBudgetMS <= MAX_NODE_BUDGET_MS
      invariant remainingSamples >= 32 * (MAX_PROBE_TARGETS - k)
      invariant limited + Fill(sanitized[k..], remainingBudgetMS) == Limited(targets)
    {
      var target := sanitized[k];
      var sampleBudgetMS := SampleBudgetMS(target);
      UnitBounds(target);
      BoundedCount(target);
      assert sanitized[k..][0] == target && sanitized[k..][1..] == sanitized[k + 1..];
      assert remainingSamples >= MAX_PROBE_COUNT;
      if remainingSamples <= 0 || remainingBudgetMS < sampleBudgetMS {
        break;
      }
      if target.count > remainingSamples {
        target := target.(count := remainingSamples);
      }
      var maxCount := remainingBudgetMS / sampleBudgetMS;
      if target.count > maxCount {
        target := target.(count := maxCount);
      }
      FillTurn(sanitized[k..], remainingBudgetMS, limited, target.count);
      // The source skips a target whose count came out as zero; none does.
      assert target.count > 0;
      limited := limited + [target];
      remainingSamples := remainingSamples - target.count;
      remainingBudgetMS := remainingBudgetMS - target.count * sampleBudgetMS;
      k := k + 1;
    }
    FillStops(sanitized[k..], remainingBudgetMS);
    assert limited + [] == limited;
  }

  lemma BoundedCount(target: ProbeTarget)
    requires Bounded(target)
    ensures 1 <= target.count <= MAX_PROBE_COUNT
  {
  }

  // ---------------------------------------------------------------- time-out

  lemma {:induction false} CostIsTotal(targets: seq<ProbeTarget>)
    requires AllBounded(targets)
    ensures Cost(Loads(targets)) == TotalMS(targets)
  {
    hide SampleMS, SampleBudgetMS;
    if targets != [] {
      BoundedMS(targets[0]);
      BoundedCount(targets[0]);
      TimesIsProduct(targets[0].count, SampleBudgetMS(targets[0]));
      LoadsOfFirst(targets);
      CostIsTotal(targets[1..]);
    }
  }

  const RUN_LOOP_TIMEOUT_MS := 120_000 + 5_000

  lemma AtLeastOne(count: int, unit: int)
    requires count >= 1 && unit >= 1
    ensures count * unit >= 1
  {
  }

  /** The time a run may take, in milliseconds: one second on top of the worst
      case of what it will probe, and less than the loop around it allows. */
  method ProbeRunTimeout(targets: seq<ProbeTarget>) returns (ms: int)
    ensures targets == [] ==> ms == 0
    ensures targets != [] ==> ms == Cost(Loads(Limited(targets))) + 1000
    ensures targets != [] ==> ms == TotalMS(Limited(targets)) + 1000
    ensures targets != [] ==> 1000 < ms <= 121_000 < RUN_LOOP_TIMEOUT_MS
  {
    hide SampleMS, SampleBudgetMS, Cost, Loads, Limited;
    var limited := LimitProbeTargetsForRun(targets);
    LimitBudgets(targets);
    CostIsTotal(limited);
    if |limited| == 0 {
      return 0;
    }
    var totalMS := 0;
    for k := 0 to |limited|
      invariant totalMS + TotalMS(limited[k..]) == TotalMS(limited)
      invariant totalMS >= k
    {
      var target := limited[k];
      assert Bounded(target);
      BoundedMS(target);
      assert limited[k..][0] == target && limited[k..][1..] == limited[k + 1..];
      AtLeastOne(target.count, SampleBudgetMS(target));
      totalMS := totalMS + NormalizedCount(target.count) * SampleBudgetMS(target);
    }
    if totalMS <= 0 {
      return DRAWABLE_LATENCY_CAP_MS;
    }
    return totalMS + 1000;
  }
}
