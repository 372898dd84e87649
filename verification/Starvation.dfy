/** Which of the due targets a run reaches, and that some are never reached
    (internal/agent/probe.go, internal/agent/probe_scheduler.go). */
module Starvation {
  import opened Text
  import opened GreedyBudget
  import opened ProbeBudget
  import opened ProbeScheduling
  import opened Sums

  // ----------------------------------------------------------------- one run

  /** What `front` is given leaves a sample of `next` to be paid, and nobody in
      `front` went without. */
  predicate LeavesRoom(front: seq<ProbeTarget>, next: ProbeTarget) {
    && |Limited(front)| == |front|
    && Cost(Loads(Limited(front))) + SampleBudgetMS(SanitizeOne(next)) <= MAX_NODE_BUDGET_MS
  }

  /** What the first target is given, and what is left for the others. */
  lemma FillFirst(wanted: seq<ProbeTarget>, left: int) returns (given: ProbeTarget, rest: int)
    requires AllBounded(wanted) && wanted != [] && left >= 0
    ensures SampleBudgetMS(wanted[0]) <= left <==> Fill(wanted, left) != []
    ensures SampleBudgetMS(wanted[0]) <= left ==>
              && given == wanted[0].(count := ShareCount(wanted[0], left))
              && rest == left - Times(given.count, SampleBudgetMS(given)) && rest >= 0
              && Fill(wanted, left) == [given] + Fill(wanted[1..], rest)
  {
    hide UnitMS;
    given, rest := wanted[0], 0;
    if SampleBudgetMS(wanted[0]) <= left {
      assert Bounded(wanted[0]);
      QuotientIsLargestFit(LoadOf(wanted[0]), left);
      given := wanted[0].(count := ShareCount(wanted[0], left));
      rest := left - Times(given.count, SampleBudgetMS(given));
    }
  }

  lemma BoundedParts(wanted: seq<ProbeTarget>, i: nat)
    requires AllBounded(wanted) && 0 < i < |wanted|
    ensures AllBounded(wanted[1..]) && AllBounded(wanted[..i])
    ensures wanted[..i][0] == wanted[0] && wanted[..i][1..] == wanted[1..][..i - 1]
  {
    hide Bounded;
  }

  lemma FillOfNone(left: int)
    ensures Fill([], left) == [] && Cost(Loads([])) == 0
  {
  }

  lemma {:induction false} FillReachesIff(wanted: seq<ProbeTarget>, i: nat, left: int)
    requires AllBounded(wanted) && i < |wanted| && left >= 0
    ensures i < |Fill(wanted, left)| <==>
            |Fill(wanted[..i], left)| == i && Cost(Loads(Fill(wanted[..i], left))) + SampleBudgetMS(wanted[i]) <= left
  {
    hide *;
    var given, rest := FillFirst(wanted, left);
    FillOfNone(left);
    if i > 0 {
      BoundedParts(wanted, i);
      var given', rest' := FillFirst(wanted[..i], left);
      if SampleBudgetMS(wanted[0]) <= left {
        var tail := wanted[1..];
        FillReachesIff(tail, i - 1, rest);
        CostOfFirst(given, Fill(tail[..i - 1], rest));
      }
    }
  }

  lemma CostOfFirst(first: ProbeTarget, rest: seq<ProbeTarget>)
    ensures Cost(Loads([first] + rest)) == Times(first.count, SampleBudgetMS(first)) + Cost(Loads(rest))
  {
    hide UnitMS;
    assert Loads([first] + rest)[1..] == Loads(rest);
  }

  /** A run reaches the i-th due target exactly if the budget is not used up by
      the ones before it. */
  lemma ReachedIff(due: seq<ProbeTarget>, i: nat)
    requires i < |due| && i < MAX_PROBE_TARGETS
    ensures i < |Limited(due)| <==> LeavesRoom(due[..i], due[i])
  {
    SanitizedBounded(due);
    assert Sanitized(due)[..i] == Sanitized(due[..i]);
    hide SampleBudgetMS, SanitizeOne, Fill, Loads, Cost;
    FillReachesIff(Sanitized(due), i, MAX_NODE_BUDGET_MS);
  }

  // --------------------------------------------------------------- many runs

  datatype Run = Run(start: int, end: int)

  /** When each target was last completed, after these runs of one
      configuration. */
  function LastAfter(targets: seq<ProbeTarget>, runs: seq<Run>): map<string, int>
    decreases |runs|, 0
  {
    if runs == [] then map[]
    else
      var before, run := runs[..|runs| - 1], runs[|runs| - 1];
      Marked(LastAfter(targets, before), BatchOf(targets, before, run.start), run.end)
  }

  /** What the next run probes. */
  function BatchOf(targets: seq<ProbeTarget>, before: seq<Run>, start: int): seq<ProbeTarget>
    decreases |before|, 1
  {
    Limited(DueTargets(LastAfter(targets, before), targets, start))
  }

  /** The targets of `g` fit into one run and leave room for nobody else. */
  predicate FillsARun(g: seq<ProbeTarget>) {
    && Limited(g) == g
    && Cost(Loads(g)) + MIN_TIMEOUT_MS > MAX_NODE_BUDGET_MS
  }

  lemma {:induction false} GreedyFillExtend(wanted: seq<Load>, more: seq<Load>, out: seq<Load>, left: int)
    requires GreedyFill(wanted, out, left) && |out| == |wanted|
    requires more == [] || more[0].unit > left - Cost(out)
    ensures GreedyFill(wanted + more, out, left)
  {
    if out != [] {
      GreedyFillExtend(wanted[1..], more, out[1..], left - Times(out[0].count, out[0].unit));
      assert (wanted + more)[1..] == wanted[1..] + more;
    } else {
      assert wanted + more == more;
    }
  }

  lemma {:induction false} LoadsOfSum(a: seq<ProbeTarget>, b: seq<ProbeTarget>)
    ensures Loads(a + b) == Loads(a) + Loads(b)
  {
  }

  /** Whoever is due behind such targets gets nothing. */
  lemma FrontTakesAll(g: seq<ProbeTarget>, more: seq<ProbeTarget>)
    requires FillsARun(g)
    ensures Limited(g + more) == g
  {
    LimitBudgets(g);
    LimitIsTheRunShare(g, g);
    BoundedSanitizeUnchanged(g);
    var wanted := Sanitized(g + more);
    SanitizedFront(g, more);
    var rest := wanted[|g|..];
    assert wanted == g + rest;
    hide UnitMS, Limited, Sanitized;
    LoadsOfSum(g, rest);
    GreedyFillExtend(Loads(g), Loads(rest), Loads(g), MAX_NODE_BUDGET_MS);
    LimitIsTheRunShare(g + more, g);
  }

  lemma SanitizedFront(g: seq<ProbeTarget>, more: seq<ProbeTarget>)
    requires Sanitized(g) == g
    ensures |g| <= |Sanitized(g + more)| && Sanitized(g + more)[..|g|] == g
  {
  }

  lemma InitAndLast<T>(s: seq<T>)
    requires s != []
    ensures s[..|s| - 1] + [s[|s| - 1]] == s
  {
  }

  lemma {:induction false} AllDueAreAll(last: map<string, int>, targets: seq<ProbeTarget>, now: int)
    requires forall i :: 0 <= i < |targets| ==> TargetDue(last, targets[i], now)
    ensures DueTargets(last, targets, now) == targets
  {
    if targets != [] {
      hide TargetDue, DueTargets;
      var init, t := targets[..|targets| - 1], targets[|targets| - 1];
      assert forall i :: 0 <= i < |init| ==> init[i] == targets[i];
      AllDueAreAll(last, init, now);
      LastDue(last, init, t, now);
      InitAndLast(targets);
    }
  }

  /** All of `g` were last completed at `at`, or never. */
  predicate DoneAt(last: map<string, int>, g: seq<ProbeTarget>, at: Option<int>) {
    forall i :: 0 <= i < |g| ==> if at.Some? then g[i].id in last && last[g[i].id] == at.value else g[i].id !in last
  }

  /** No target of one group shares its id with one of the other. */
  predicate Apart(a: seq<ProbeTarget>, b: seq<ProbeTarget>) {
    forall i, j :: 0 <= i < |a| && 0 <= j < |b| ==> a[i].id != b[j].id
  }

  predicate Named(g: seq<ProbeTarget>) {
    forall i :: 0 <= i < |g| ==> g[i].id != ""
  }

  /** Runs that take longer than the intervals of `g` and follow one another
      before these pass again. */
  predicate Slow(runs: seq<Run>, g: seq<ProbeTarget>) {
    && (forall k, i :: 0 <= k < |runs| && 0 <= i < |g| ==> runs[k].start + Interval(g[i]) <= runs[k].end)
    && (forall k :: 0 < k < |runs| ==> runs[k - 1].end <= runs[k].start)
    && (forall k, i :: 0 < k < |runs| && 0 <= i < |g| ==> runs[k].start < runs[k - 1].end + Interval(g[i]))
  }

  /** The configuration: two groups, and whoever comes behind them. */
  datatype Groups = Groups(first: seq<ProbeTarget>, second: seq<ProbeTarget>, rest: seq<ProbeTarget>)

  function Targets(c: Groups): seq<ProbeTarget> {
    c.first + (c.second + c.rest)
  }

  predicate Crowded(c: Groups) {
    FillsARun(c.first) && FillsARun(c.second) && Apart(c.first, c.second) && Named(c.first) && Named(c.second)
  }

  /** The group whose turn the n-th run is, and the other. */
  function Turn(c: Groups, n: nat): seq<ProbeTarget> {
    if n % 2 == 0 then c.first else c.second
  }

  function EndOf(runs: seq<Run>, n: int): Option<int> {
    if 0 <= n < |runs| then Some(runs[n].end) else None
  }

  lemma DueAgain(last: map<string, int>, g: seq<ProbeTarget>, at: Option<int>, now: int)
    requires DoneAt(last, g, at)
    requires at.Some? ==> forall i :: 0 <= i < |g| ==> at.value + Interval(g[i]) <= now
    ensures DueTargets(last, g, now) == g
  {
    hide Interval, DueTargets;
    AllDueAreAll(last, g, now);
  }

  lemma FirstIsMember<T>(s: seq<T>)
    ensures s == [] || s[0] in s
  {
  }

  lemma NotDueYet(last: map<string, int>, g: seq<ProbeTarget>, at: int, now: int)
    requires DoneAt(last, g, Some(at))
    requires forall i :: 0 <= i < |g| ==> now < at + Interval(g[i])
    ensures DueTargets(last, g, now) == []
  {
    hide Interval, DueTargets;
    FirstIsMember(DueTargets(last, g, now));
  }

  lemma MarkedGroup(last: map<string, int>, g: seq<ProbeTarget>, other: seq<ProbeTarget>, at: Option<int>, now: int)
    requires Named(g) && Apart(g, other) && DoneAt(last, other, at)
    ensures DoneAt(Marked(last, g, now), g, Some(now)) && DoneAt(Marked(last, g, now), other, at)
  {
    forall i | 0 <= i < |g| ensures g[i].id in Marked(last, g, now) && Marked(last, g, now)[g[i].id] == now {
      assert g[i] in g;
    }
  }

  /** What the scheduler remembers after `n` slow runs. */
  predicate TakenTurns(c: Groups, runs: seq<Run>, n: nat)
    requires n <= |runs|
  {
    var last := LastAfter(Targets(c), runs[..n]);
    && DoneAt(last, Turn(c, n), EndOf(runs, n - 2))
    && (n > 0 ==> DoneAt(last, Turn(c, n + 1), EndOf(runs, n - 1)))
    && (n == 0 ==> last == map[])
  }

  lemma BatchIsTurn(c: Groups, runs: seq<Run>, n: nat)
    requires Crowded(c) && Slow(runs, c.first + c.second) && n < |runs| && TakenTurns(c, runs, n)
    ensures BatchOf(Targets(c), runs[..n], runs[n].start) == Turn(c, n)
  {
    hide Limited, DueTargets, Interval, FillsARun, LastAfter, Apart, Named;
    var last, now := LastAfter(Targets(c), runs[..n]), runs[n].start;
    var g, more := Turn(c, n), DueTargets(last, c.rest, now);
    DueOfSum(last, c.first, c.second + c.rest, now);
    DueOfSum(last, c.second, c.rest, now);
    InBoth(c);
    assert DueTargets(last, g, now) == g by {
      if n >= 2 {
        assert runs[n - 2].end <= runs[n - 1].start;
      }
      DueAgain(last, g, EndOf(runs, n - 2), now);
    }
    if n % 2 == 0 {
      FrontTakesAll(c.first, DueTargets(last, c.second, now) + more);
    } else {
      NotDueYet(last, c.first, runs[n - 1].end, now);
      FrontTakesAll(c.second, more);
      assert [] + (c.second + more) == c.second + more;
    }
  }

  lemma InBoth(c: Groups)
    ensures forall i :: 0 <= i < |c.first| ==> (c.first + c.second)[i] == c.first[i]
    ensures forall i :: 0 <= i < |c.second| ==> (c.first + c.second)[|c.first| + i] == c.second[i]
  {
  }

  lemma ApartBothWays(a: seq<ProbeTarget>, b: seq<ProbeTarget>)
    requires Apart(a, b)
    ensures Apart(b, a)
  {
  }

  lemma TurnsAlternate(c: Groups, n: nat)
    requires Crowded(c)
    ensures Turn(c, n + 2) == Turn(c, n)
    ensures Named(Turn(c, n)) && Apart(Turn(c, n), Turn(c, n + 1))
  {
    hide FillsARun;
    ApartBothWays(c.first, c.second);
  }

  lemma LastAfterRun(targets: seq<ProbeTarget>, runs: seq<Run>, n: nat)
    requires n < |runs|
    ensures LastAfter(targets, runs[..n + 1])
            == Marked(LastAfter(targets, runs[..n]), BatchOf(targets, runs[..n], runs[n].start), runs[n].end)
  {
    hide BatchOf, Marked;
    assert runs[..n + 1][..n] == runs[..n];
  }

  lemma TurnTaken(c: Groups, runs: seq<Run>, n: nat)
    requires Crowded(c) && n < |runs| && TakenTurns(c, runs, n)
    requires BatchOf(Targets(c), runs[..n], runs[n].start) == Turn(c, n)
    ensures TakenTurns(c, runs, n + 1)
  {
    TurnsAlternate(c, n);
    hide Crowded, Turn, Targets, BatchOf, LastAfter, Marked, Apart, Named, Slow, DoneAt;
    LastAfterRun(Targets(c), runs, n);
    NobodyDone(Turn(c, n + 1));
    MarkedGroup(LastAfter(Targets(c), runs[..n]), Turn(c, n), Turn(c, n + 1), EndOf(runs, n - 1), runs[n].end);
  }

  lemma NobodyDone(g: seq<ProbeTarget>)
    ensures DoneAt(map[], g, None)
  {
  }

  lemma NoTurnYet(c: Groups, runs: seq<Run>)
    ensures TakenTurns(c, runs, 0)
  {
    hide Targets, BatchOf;
    assert runs[..0] == [];
  }

  lemma {:induction false} TurnsTaken(c: Groups, runs: seq<Run>, n: nat)
    requires Crowded(c) && Slow(runs, c.first + c.second) && n <= |runs|
    ensures TakenTurns(c, runs, n)
  {
    hide *;
    if n == 0 {
      NoTurnYet(c, runs);
    } else {
      TurnsTaken(c, runs, n - 1);
      BatchIsTurn(c, runs, n - 1);
      TurnTaken(c, runs, n - 1);
    }
  }

  /** While probes are slow, two groups that each fill a run take turns, and
      nobody behind them is ever probed, however often the loop runs. */
  lemma TheRestStarves(c: Groups, runs: seq<Run>, n: nat)
    requires Crowded(c) && Slow(runs, c.first + c.second) && n < |runs|
    ensures BatchOf(Targets(c), runs[..n], runs[n].start) == if n % 2 == 0 then c.first else c.second
  {
    hide *;
    TurnsTaken(c, runs, n);
    BatchIsTurn(c, runs, n);
    TurnIs(c, n);
  }

  lemma TurnIs(c: Groups, n: nat)
    ensures Turn(c, n) == if n % 2 == 0 then c.first else c.second
  {
  }

  // ------------------------------------------------------------- an instance

  /** Twelve samples of five seconds each, every five seconds. */
  function Hungry(id: string): ProbeTarget {
    ProbeTarget(id, "", "tcp", "", None, 12, 5000, 5)
  }

  lemma TwoFillARun(a: string, b: string)
    ensures FillsARun([Hungry(a), Hungry(b)])
  {
    var g := [Hungry(a), Hungry(b)];
    assert Trim("tcp") == "tcp";
    TimesIsProduct(12, 5000);
    assert SampleBudgetMS(g[0]) == 5000 && SampleBudgetMS(g[1]) == 5000;
    assert SanitizeOne(g[0]) == g[0] && SanitizeOne(g[1]) == g[1];
    assert Sanitized(g) == g;
    hide UnitMS, Sanitized, SanitizeOne;
    assert g[1..] == [g[1]] && g[1..][1..] == [];
    assert ShareCount(g[1], 60_000) == 12 && ShareCount(g[0], 120_000) == 12;
    assert Fill(g[1..], 60_000) == [g[1]];
    assert Fill(g, 120_000) == [g[0]] + [g[1]];
    assert Loads(g)[1..] == [LoadOf(g[1])];
    assert Cost([LoadOf(g[1])]) == 60_000;
  }

  /** Runs of a minute with a second between them. */
  function Minutes(n: nat): seq<Run> {
    seq(n, k requires 0 <= k < n => Run(61_000_000_000 * k, 61_000_000_000 * k + 60_000_000_000))
  }

  /** Four targets whose hosts do not answer keep any fifth from being probed
      for ever. */
  lemma FiveTargets(fifth: ProbeTarget, n: nat, k: nat)
    requires k < n
    ensures var first, second := [Hungry("a"), Hungry("b")], [Hungry("c"), Hungry("d")];
            BatchOf(first + (second + [fifth]), Minutes(n)[..k], Minutes(n)[k].start) == if k % 2 == 0 then first else second
  {
    hide BatchOf, FillsARun;
    var c := Groups([Hungry("a"), Hungry("b")], [Hungry("c"), Hungry("d")], [fifth]);
    TwoFillARun("a", "b");
    TwoFillARun("c", "d");
    TheRestStarves(c, Minutes(n), k);
  }

  // ------------------------------------------------------ when nobody starves

  function IdsOf(targets: seq<ProbeTarget>): (ids: set<string>)
    ensures forall t :: t in targets ==> t.id in ids
    ensures forall id :: id in ids ==> exists t :: t in targets && t.id == id
    ensures |ids| <= |targets|
  {
    if targets == [] then {} else {targets[0].id} + IdsOf(targets[1..])
  }

  /** The ids probed in the `n` runs from the m-th on. */
  function ProbedIds(targets: seq<ProbeTarget>, runs: seq<Run>, m: nat, n: nat): set<string>
    requires m + n <= |runs|
  {
    if n == 0 then {}
    else ProbedIds(targets, runs, m, n - 1) + IdsOf(BatchOf(targets, runs[..m + n - 1], runs[m + n - 1].start))
  }

  /** The `n` runs from the m-th on all start before anything the first of them
      completed is due again. */
  predicate Often(targets: seq<ProbeTarget>, runs: seq<Run>, m: nat, n: nat)
    requires m + n <= |runs|
  {
    && (forall i, t :: m <= i < m + n && t in targets ==> runs[i].start < runs[m].end + Interval(t))
    && (forall i :: m <= i < m + n ==> runs[m].start <= runs[i].start && runs[m].end <= runs[i].end)
  }

  lemma BatchIsDue(due: seq<ProbeTarget>)
    ensures due != [] ==> Limited(due) != []
    ensures forall b :: b in Limited(due) ==> exists d :: d in due && d.id == b.id
  {
    LimitBudgets(due);
    hide Limited;
    forall b | b in Limited(due) ensures exists d :: d in due && d.id == b.id {
      var i :| 0 <= i < |Limited(due)| && Limited(due)[i] == b;
      assert Limited(due)[i] == Sanitized(due)[i].(count := b.count);
      assert due[i] in due && due[i].id == b.id;
    }
  }

  /** What the scheduler knows after `n` of these runs, none of which probed
      `id`. */
  ghost predicate Progress(targets: seq<ProbeTarget>, runs: seq<Run>, m: nat, n: nat, id: string)
    requires m + n <= |runs| && m < |runs|
  {
    var last, probed := LastAfter(targets, runs[..m + n]), ProbedIds(targets, runs, m, n);
    && |probed| >= n
    && (forall x :: x in probed ==> x in last && last[x] >= runs[m].end)
    && (id in last <==> id in LastAfter(targets, runs[..m]))
    && (id in last ==> last[id] == LastAfter(targets, runs[..m])[id])
  }

  /** A run of the series probes somebody it has not probed yet, while anybody
      is due. */
  lemma NewlyProbed(targets: seq<ProbeTarget>, runs: seq<Run>, m: nat, n: nat, t: ProbeTarget)
    requires m + n < |runs| && Often(targets, runs, m, n + 1) && Progress(targets, runs, m, n, t.id)
    requires t in targets && TargetDue(LastAfter(targets, runs[..m]), t, runs[m].start)
    ensures var batch := BatchOf(targets, runs[..m + n], runs[m + n].start);
            batch != [] && forall b :: b in batch ==> b.id !in ProbedIds(targets, runs, m, n)
  {
    hide Limited, Interval;
    var last, now := LastAfter(targets, runs[..m + n]), runs[m + n].start;
    var due := DueTargets(last, targets, now);
    assert TargetDue(last, t, now);
    assert t in due;
    BatchIsDue(due);
    forall b | b in Limited(due) ensures b.id !in ProbedIds(targets, runs, m, n) {
      var d :| d in due && d.id == b.id;
      assert d in targets && TargetDue(last, d, now);
      assert now < runs[m].end + Interval(d);
    }
  }

  /** The completion times after a batch that `id` was not in. */
  lemma MarkedBatch(last: map<string, int>, batch: seq<ProbeTarget>, end: int, id: string)
    requires id !in IdsOf(batch) && forall b :: b in batch ==> b.id != ""
    ensures var next := Marked(last, batch, end);
            && (forall x :: x in next <==> x in last || x in IdsOf(batch))
            && (forall x :: x in next ==> next[x] == if x in IdsOf(batch) then end else last[x])
  {
    hide IdsOf;
  }

  lemma OneMoreRun(targets: seq<ProbeTarget>, runs: seq<Run>, m: nat, n: nat, id: string)
    requires m + n < |runs| && Progress(targets, runs, m, n, id) && runs[m].end <= runs[m + n].end
    requires id !in ProbedIds(targets, runs, m, n + 1)
    requires |ProbedIds(targets, runs, m, n + 1)| >= n + 1
    requires forall b :: b in BatchOf(targets, runs[..m + n], runs[m + n].start) ==> b.id != ""
    ensures Progress(targets, runs, m, n + 1, id)
  {
    hide LastAfter, BatchOf, Marked, IdsOf;
    LastAfterRun(targets, runs, m + n);
    MarkedBatch(LastAfter(targets, runs[..m + n]), BatchOf(targets, runs[..m + n], runs[m + n].start), runs[m + n].end, id);
  }

  lemma OneRunLess(targets: seq<ProbeTarget>, runs: seq<Run>, m: nat, n: nat)
    requires m + n < |runs| && Often(targets, runs, m, n + 1)
    ensures Often(targets, runs, m, n) && runs[m].end <= runs[m + n].end
    ensures ProbedIds(targets, runs, m, n) <= ProbedIds(targets, runs, m, n + 1)
  {
    hide Interval, BatchOf, IdsOf;
  }

  lemma NoProgressYet(targets: seq<ProbeTarget>, runs: seq<Run>, m: nat, id: string)
    requires m < |runs|
    ensures Progress(targets, runs, m, 0, id)
  {
    hide LastAfter;
  }

  lemma {:induction false} ProgressMade(targets: seq<ProbeTarget>, runs: seq<Run>, m: nat, n: nat, t: ProbeTarget)
    requires m + n <= |runs| && m < |runs| && Often(targets, runs, m, n) && Named(targets)
    requires t in targets && TargetDue(LastAfter(targets, runs[..m]), t, runs[m].start)
    requires t.id !in ProbedIds(targets, runs, m, n)
    ensures Progress(targets, runs, m, n, t.id)
  {
    hide *;
    if n == 0 {
      NoProgressYet(targets, runs, m, t.id);
    } else {
      OneRunLess(targets, runs, m, n - 1);
      ProgressMade(targets, runs, m, n - 1, t);
      NewlyProbed(targets, runs, m, n - 1, t);
      BatchIsNamed(targets, runs[..m + n - 1], runs[m + n - 1].start);
      ProbedMore(targets, runs, m, n - 1);
      ProgressCount(targets, runs, m, n - 1, t.id);
      OneMoreRun(targets, runs, m, n - 1, t.id);
    }
  }

  lemma ProgressCount(targets: seq<ProbeTarget>, runs: seq<Run>, m: nat, n: nat, id: string)
    requires m + n <= |runs| && m < |runs| && Progress(targets, runs, m, n, id)
    ensures |ProbedIds(targets, runs, m, n)| >= n
  {
    hide LastAfter, ProbedIds;
  }

  lemma BatchIsNamed(targets: seq<ProbeTarget>, before: seq<Run>, start: int)
    requires Named(targets)
    ensures forall b :: b in BatchOf(targets, before, start) ==> b.id != "" && b.id in IdsOf(targets)
  {
    hide Limited, LastAfter;
    BatchIsDue(DueTargets(LastAfter(targets, before), targets, start));
  }

  lemma ProbedMore(targets: seq<ProbeTarget>, runs: seq<Run>, m: nat, n: nat)
    requires m + n < |runs|
    requires BatchOf(targets, runs[..m + n], runs[m + n].start) != []
    requires forall b :: b in BatchOf(targets, runs[..m + n], runs[m + n].start) ==> b.id !in ProbedIds(targets, runs, m, n)
    ensures |ProbedIds(targets, runs, m, n + 1)| >= |ProbedIds(targets, runs, m, n)| + 1
  {
    hide BatchOf;
    var batch, probed := BatchOf(targets, runs[..m + n], runs[m + n].start), ProbedIds(targets, runs, m, n);
    assert batch[0].id in IdsOf(batch);
    SubsetSize(probed + {batch[0].id}, probed + IdsOf(batch));
  }

  lemma {:induction false} ProbedAreTargets(targets: seq<ProbeTarget>, runs: seq<Run>, m: nat, n: nat)
    requires m + n <= |runs| && Named(targets)
    ensures ProbedIds(targets, runs, m, n) <= IdsOf(targets)
  {
    hide BatchOf, IdsOf, Named;
    if n > 0 {
      ProbedAreTargets(targets, runs, m, n - 1);
      BatchIsNamed(targets, runs[..m + n - 1], runs[m + n - 1].start);
      IdsWithin(BatchOf(targets, runs[..m + n - 1], runs[m + n - 1].start), IdsOf(targets));
    }
  }

  lemma IdsWithin(batch: seq<ProbeTarget>, ids: set<string>)
    requires forall b :: b in batch ==> b.id in ids
    ensures IdsOf(batch) <= ids
  {
    hide IdsOf;
  }

  /** While the loop comes back often, everybody gets a turn: a target that is
      due is probed within as many runs as there are targets, if all of these
      start before the first of them is past by the least interval. */
  lemma DueTargetIsProbed(targets: seq<ProbeTarget>, runs: seq<Run>, m: nat, t: ProbeTarget)
    requires m + |targets| <= |runs| && Named(targets) && Often(targets, runs, m, |targets|)
    requires t in targets && TargetDue(LastAfter(targets, runs[..m]), t, runs[m].start)
    ensures t.id in ProbedIds(targets, runs, m, |targets|)
  {
    hide *;
    var n := |targets|;
    var probed := ProbedIds(targets, runs, m, n);
    if t.id !in probed {
      ProgressMade(targets, runs, m, n, t);
      ProgressCount(targets, runs, m, n, t.id);
      ProbedAreTargets(targets, runs, m, n);
      SubsetSize(probed + {t.id}, IdsOf(targets));
    }
  }

  // ---------------------------------------------------- runs that fail to store

  /** A run whose batch was stored or not: only then is it marked completed. */
  datatype Attempt = Attempt(run: Run, stored: bool)

  function LastAfterAttempts(targets: seq<ProbeTarget>, attempts: seq<Attempt>): map<string, int> {
    if attempts == [] then map[]
    else
      var last, a := LastAfterAttempts(targets, attempts[..|attempts| - 1]), attempts[|attempts| - 1];
      if a.stored then Marked(last, Limited(DueTargets(last, targets, a.run.start)), a.run.end) else last
  }

  /** What the next attempt probes. */
  function AttemptBatch(targets: seq<ProbeTarget>, before: seq<Attempt>, start: int): seq<ProbeTarget> {
    Limited(DueTargets(LastAfterAttempts(targets, before), targets, start))
  }

  function StoredRuns(attempts: seq<Attempt>): seq<Run> {
    if attempts == [] then []
    else
      var a := attempts[|attempts| - 1];
      StoredRuns(attempts[..|attempts| - 1]) + (if a.stored then [a.run] else [])
  }

  lemma OneMoreStored(targets: seq<ProbeTarget>, runs: seq<Run>, run: Run)
    ensures var last := LastAfter(targets, runs);
            LastAfter(targets, runs + [run]) == Marked(last, Limited(DueTargets(last, targets, run.start)), run.end)
  {
    hide Limited, DueTargets, Marked;
    assert (runs + [run])[..|runs|] == runs;
  }

  lemma NothingYet(targets: seq<ProbeTarget>)
    ensures LastAfter(targets, []) == map[]
  {
  }

  /** A run that fails to store leaves the same targets due in the same order. */
  lemma {:induction false} FailedRunsDoNothing(targets: seq<ProbeTarget>, attempts: seq<Attempt>)
    ensures LastAfterAttempts(targets, attempts) == LastAfter(targets, StoredRuns(attempts))
  {
    hide Limited, DueTargets, Marked, LastAfter;
    if attempts == [] {
      NothingYet(targets);
    } else {
      var before, a := attempts[..|attempts| - 1], attempts[|attempts| - 1];
      FailedRunsDoNothing(targets, before);
      OneMoreStored(targets, StoredRuns(before), a.run);
      assert StoredRuns(before) + [] == StoredRuns(before);
    }
  }

  /** The attempt that was the i-th to be stored. */
  lemma {:induction false} AttemptOf(attempts: seq<Attempt>, from: nat, i: nat) returns (k: nat)
    requires from <= |attempts| && |StoredRuns(attempts[..from])| <= i < |StoredRuns(attempts)|
    ensures from <= k < |attempts| && attempts[k].stored && attempts[k].run == StoredRuns(attempts)[i]
    ensures StoredRuns(attempts[..k]) == StoredRuns(attempts)[..i]
  {
    assert attempts[..|attempts|] == attempts;
    var before := attempts[..|attempts| - 1];
    k := |attempts| - 1;
    if i < |StoredRuns(before)| {
      assert before[..from] == attempts[..from];
      k := AttemptOf(before, from, i);
      assert before[..k] == attempts[..k];
    }
  }

  lemma {:induction false} ProbedAt(targets: seq<ProbeTarget>, runs: seq<Run>, m: nat, n: nat, id: string) returns (i: nat)
    requires m + n <= |runs| && id in ProbedIds(targets, runs, m, n)
    ensures m <= i < m + n && id in IdsOf(BatchOf(targets, runs[..i], runs[i].start))
  {
    hide BatchOf, IdsOf;
    if id in ProbedIds(targets, runs, m, n - 1) {
      i := ProbedAt(targets, runs, m, n - 1, id);
    } else {
      i := m + n - 1;
    }
  }

  /** So it takes as many runs that are stored as there are targets, whatever
      fails in between, until a batch with the due target is stored. */
  lemma DueTargetIsStored(targets: seq<ProbeTarget>, attempts: seq<Attempt>, from: nat, t: ProbeTarget)
    requires from <= |attempts|
    requires var m, runs := |StoredRuns(attempts[..from])|, StoredRuns(attempts);
             && m + |targets| <= |runs| && Named(targets) && Often(targets, runs, m, |targets|)
             && t in targets && TargetDue(LastAfterAttempts(targets, attempts[..from]), t, runs[m].start)
    ensures exists k :: from <= k < |attempts| && attempts[k].stored
              && t.id in IdsOf(AttemptBatch(targets, attempts[..k], attempts[k].run.start))
  {
    hide Limited, DueTargets, LastAfter, LastAfterAttempts, Often, Named, TargetDue, IdsOf, ProbedIds;
    var m, runs := |StoredRuns(attempts[..from])|, StoredRuns(attempts);
    StoredPrefix(attempts, from);
    FailedRunsDoNothing(targets, attempts[..from]);
    DueTargetIsProbed(targets, runs, m, t);
    var i := ProbedAt(targets, runs, m, |targets|, t.id);
    var k := AttemptOf(attempts, from, i);
    FailedRunsDoNothing(targets, attempts[..k]);
  }

  lemma {:induction false} StoredPrefix(attempts: seq<Attempt>, from: nat)
    requires from <= |attempts|
    ensures |StoredRuns(attempts[..from])| <= |StoredRuns(attempts)|
    ensures StoredRuns(attempts)[..|StoredRuns(attempts[..from])|] == StoredRuns(attempts[..from])
  {
    if from < |attempts| {
      StoredPrefix(attempts[..|attempts| - 1], from);
      assert attempts[..|attempts| - 1][..from] == attempts[..from];
    } else {
      assert attempts[..from] == attempts;
    }
  }
}
