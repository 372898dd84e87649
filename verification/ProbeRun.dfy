/** One probing run: rounds for the due targets, stored before they count as
    completed (internal/agent/probe.go, cmd/zeno-agent/main.go). */
module ProbeRun {
  import opened Text
  import opened Envelopes
  import opened GreedyBudget
  import opened ProbeBudget
  import opened ProbeScheduling
  import opened ProbeRounds
  import opened TargetManager
  import SpoolModel
  import Store = ProbeSpoolStore

  // ------------------------------------------------------------------ rounds

  /** The samples of one round: as many as asked for, numbered from one. */
  predicate FullRound(samples: seq<Sample>, count: int) {
    |samples| == count && forall i :: 0 <= i < |samples| ==> samples[i].seqNo == i + 1
  }

  /** How the world treats a round: the set-up may fail, the run may be cancelled
      before an attempt, each attempt may fail. Failures carry their labels. */
  datatype World = World(
    setUp: Option<string>, cancelledBefore: Option<nat>, cancelLabel: string, attempts: nat -> Option<string>)

  /** The kinds of target there is a probe for. */
  predicate Supported(kind: string) {
    kind == "tcp" || kind == "tcping" || kind == "ping" || kind == "icmp"
    || kind == "http" || kind == "https" || kind == "http_get"
  }

  predicate AllFailed(samples: seq<Sample>, error: string) {
    forall s :: s in samples ==> !s.success && s.error == error
  }

  /** The k-th sample succeeds exactly if the k-th attempt was made and did, and
      otherwise says why not. */
  predicate TrueToWorld(samples: seq<Sample>, w: World) {
    forall i :: 0 <= i < |samples| ==>
      var k := i + 1;
      if w.setUp.Some? then !samples[i].success && samples[i].error == w.setUp.value
      else if w.cancelledBefore.Some? && w.cancelledBefore.value <= k then !samples[i].success && samples[i].error == w.cancelLabel
      else if w.attempts(k).Some? then !samples[i].success && samples[i].error == w.attempts(k).value
      else samples[i].success && samples[i].error == ""
  }

  method FailedSamples(count: int, error: string) returns (samples: seq<Sample>)
    ensures FullRound(samples, NormalizedCount(count)) && AllFailed(samples, error)
  {
    samples := [];
    for k := 1 to NormalizedCount(count) + 1
      invariant FullRound(samples, k - 1) && AllFailed(samples, error)
    {
      samples := samples + [Sample(k, false, error)];
    }
  }

  /** Probes one target. Setup may fail, each sample may fail, and the run may
      be cancelled before any of them: the rest is then filled with failures. */
  method RunProbe(target: ProbeTarget, w: World) returns (samples: seq<Sample>)
    ensures FullRound(samples, NormalizedCount(target.count))
    ensures TrueToWorld(samples, w)
  {
    var count := NormalizedCount(target.count);
    if w.setUp.Some? {
      samples := FailedSamples(count, w.setUp.value);
      return;
    }
    samples := [];
    var k := 1;
    while k <= count
      invariant 1 <= k <= count + 1
      invariant FullRound(samples, k - 1) && TrueToWorld(samples, w)
      invariant w.cancelledBefore.Some? ==> w.cancelledBefore.value >= k || k == 1
    {
      if w.cancelledBefore.Some? && w.cancelledBefore.value <= k {
        for failed := k to count + 1
          invariant FullRound(samples, failed - 1) && TrueToWorld(samples, w)
        {
          samples := samples + [Sample(failed, false, w.cancelLabel)];
        }
        return;
      }
      var failure := w.attempts(k);
      samples := samples + [Sample(k, failure.None?, if failure.Some? then failure.value else "")];
      k := k + 1;
    }
  }

  /** The probe of the target's kind; other kinds fail throughout. */
  method ProbeOne(target: ProbeTarget, w: World) returns (samples: seq<Sample>)
    ensures FullRound(samples, NormalizedCount(target.count))
    ensures if Supported(target.kind) then TrueToWorld(samples, w) else AllFailed(samples, "unsupported_" + target.kind)
  {
    match target.kind
    case "tcping" | "tcp" => samples := RunProbe(target, w);
    case "ping" | "icmp" => samples := RunProbe(target, w);
    case "http_get" | "http" | "https" => samples := RunProbe(target, w);
    case _ => samples := FailedSamples(target.count, "unsupported_" + target.kind);
  }

  /** The round of a target: its id, its type, all of its samples, and nothing in
      them but what happened. */
  predicate RoundOf(r: ProbeRound, t: ProbeTarget, ts: int, id: string, w: World) {
    && r.roundId == id && r.targetId == t.id && r.kind == t.kind && r.ts == ts && FullRound(r.samples, t.count)
    && if Supported(t.kind) then TrueToWorld(r.samples, w) else AllFailed(r.samples, "unsupported_" + t.kind)
  }

  /** `world` treats the i-th target. */
  predicate RoundsOf(rounds: seq<ProbeRound>, targets: seq<ProbeTarget>, ts: int, newId: nat -> string, world: nat -> World) {
    |rounds| == |targets| && forall i :: 0 <= i < |rounds| ==> RoundOf(rounds[i], targets[i], ts, newId(i), world(i))
  }

  /** What is stored of a run: under the version of the batch one round of each
      target in order, with as many samples as it was given, numbered from one,
      and nothing in them but what happened. */
  predicate PayloadOfRun(p: Payload, targets: seq<ProbeTarget>, version: int, ts: int, newId: nat -> string, world: nat -> World) {
    && p.configVersion == version
    && |p.rounds| == |targets|
    && forall i :: 0 <= i < |targets| ==>
         && p.rounds[i].roundId == newId(i)
         && p.rounds[i].targetId == targets[i].id
         && p.rounds[i].kind == targets[i].kind
         && p.rounds[i].ts * 1_000_000_000 <= ts < (p.rounds[i].ts + 1) * 1_000_000_000
         && |p.rounds[i].samples| == targets[i].count
         && (forall k :: 0 <= k < targets[i].count ==> p.rounds[i].samples[k].seqNo == k + 1)
         && (if targets[i].kind in {"tcp", "tcping", "ping", "icmp", "http", "https", "http_get"}
             then TrueToWorld(p.rounds[i].samples, world(i))
             else AllFailed(p.rounds[i].samples, "unsupported_" + targets[i].kind))
  }

  lemma RunReported(p: Payload, rounds: seq<ProbeRound>, targets: seq<ProbeTarget>, version: int, ts: int,
                    newId: nat -> string, world: nat -> World)
    requires Reports(p, rounds) && RoundsOf(rounds, targets, ts, newId, world) && rounds != []
    requires forall r :: r in rounds ==> r.configVersion == version
    ensures PayloadOfRun(p, targets, version, ts, newId, world)
  {
    hide TrueToWorld, AllFailed;
    assert rounds[0] in rounds;
    forall i | 0 <= i < |rounds| ensures RoundOf(rounds[i], targets[i], ts, newId(i), world(i)) {
    }
  }

  function Indices(n: nat): (r: set<nat>)
    ensures forall i :: i in r <==> 0 <= i < n
  {
    if n == 0 then {} else Indices(n - 1) + {n - 1}
  }

  /** Probes the targets at once: the slots are filled in any order, each with
      the round of its own target. `newId` draws round ids. */
  method ProbeTargets(targets: seq<ProbeTarget>, ts: int, newId: nat -> string, world: nat -> World)
    returns (rounds: seq<ProbeRound>)
    ensures RoundsOf(rounds, Limited(targets), ts, newId, world)
  {
    hide Bounded, Limited, RoundOf, FullRound, Indices, TrueToWorld, AllFailed, Supported;
    var limited := LimitProbeTargetsForRun(targets);
    LimitBudgets(targets);
    var slots := new ProbeRound[|limited|](i => ProbeRound("", 0, "", 0, "", []));
    var open := Indices(|limited|);
    while open != {}
      invariant forall i :: i in open ==> 0 <= i < |limited|
      invariant forall i :: 0 <= i < |limited| && i !in open ==> RoundOf(slots[i], limited[i], ts, newId(i), world(i))
      decreases |open|
    {
      var i :| i in open;
      var samples := ProbeOne(limited[i], world(i));
      RoundMade(newId(i), limited[i], ts, samples, world(i));
      slots[i] := ProbeRound(newId(i), 0, limited[i].id, ts, limited[i].kind, samples);
      open := open - {i};
    }
    rounds := slots[..];
  }

  lemma RoundMade(id: string, t: ProbeTarget, ts: int, samples: seq<Sample>, w: World)
    requires Bounded(t) && FullRound(samples, NormalizedCount(t.count))
    requires if Supported(t.kind) then TrueToWorld(samples, w) else AllFailed(samples, "unsupported_" + t.kind)
    ensures RoundOf(ProbeRound(id, 0, t.id, ts, t.kind, samples), t, ts, id, w)
  {
  }

  method StampVersion(rounds: seq<ProbeRound>, version: int) returns (stamped: seq<ProbeRound>)
    ensures |stamped| == |rounds|
    ensures forall i :: 0 <= i < |rounds| ==> stamped[i] == rounds[i].(configVersion := version)
  {
    stamped := [];
    for k := 0 to |rounds|
      invariant |stamped| == k
      invariant forall i :: 0 <= i < k ==> stamped[i] == rounds[i].(configVersion := version)
    {
      stamped := stamped + [rounds[k].(configVersion := version)];
    }
  }

  // --------------------------------------------------------------------- run

  method ApplyAll(m: ProbeTargetManager, updates: seq<Update>)
    requires m.Valid()
    modifies m, m.backing
    ensures m.Valid() && m.Held() == AfterAll(old(m.Held()), updates)
    ensures m.backing == old(m.backing) || fresh(m.backing)
    ensures if ChangeCount(old(m.Held()), updates) == 0 then m.scheduler == old(m.scheduler) else fresh(m.scheduler)
  {
    hide After, Acceptable, Changes;
    for k := 0 to |updates|
      invariant m.Valid() && m.Held() == AfterAll(old(m.Held()), updates[..k])
      invariant m.backing == old(m.backing) || fresh(m.backing)
      invariant if ChangeCount(old(m.Held()), updates[..k]) == 0 then m.scheduler == old(m.scheduler) else fresh(m.scheduler)
    {
      assert updates[..k + 1][..k] == updates[..k];
      var ok := m.Apply(updates[k].targets, updates[k].version);
    }
    assert updates[..|updates|] == updates;
  }

  datatype RunEnd = Empty | Stale | NotStored | StoredUnmarked | StoredMarked

  /** A body that reports the rounds is stored under the new id. */
  ghost predicate StoredRounds(spool: Store.ProbeSpool, id: string, rounds: seq<ProbeRound>)
    reads spool
  {
    && id in spool.births && id in spool.ledger && spool.ledger[id].Pending?
    && rounds != []
    && exists p :: Reports(p, rounds) && spool.births[id].body == spool.u.codec.marshal(p)
  }

  ghost predicate StoredRun(spool: Store.ProbeSpool, id: string, targets: seq<ProbeTarget>, version: int, ts: int,
                            newId: nat -> string, world: nat -> World)
    reads spool
  {
    && id in spool.births
    && exists p :: PayloadOfRun(p, targets, version, ts, newId, world) && spool.births[id].body == spool.u.codec.marshal(p)
  }

  lemma RunStored(spool: Store.ProbeSpool, id: string, rounds: seq<ProbeRound>, targets: seq<ProbeTarget>, version: int, ts: int,
                  newId: nat -> string, world: nat -> World)
    requires StoredRounds(spool, id, rounds) && RoundsOf(rounds, targets, ts, newId, world)
    requires forall r :: r in rounds ==> r.configVersion == version
    ensures StoredRun(spool, id, targets, version, ts, newId, world)
  {
    hide Reports, RoundsOf;
    var p :| Reports(p, rounds) && spool.births[id].body == spool.u.codec.marshal(p);
    RunReported(p, rounds, targets, version, ts, newId, world);
  }

  lemma StampedRounds(rounds: seq<ProbeRound>, stamped: seq<ProbeRound>, targets: seq<ProbeTarget>, ts: int, version: int,
                      newId: nat -> string, world: nat -> World)
    requires RoundsOf(rounds, targets, ts, newId, world) && |stamped| == |rounds|
    requires forall i :: 0 <= i < |rounds| ==> stamped[i] == rounds[i].(configVersion := version)
    ensures RoundsOf(stamped, targets, ts, newId, world)
    ensures forall r :: r in stamped ==> r.configVersion == version
  {
    hide TrueToWorld, AllFailed, Supported;
    forall i | 0 <= i < |stamped| ensures RoundOf(stamped[i], targets[i], ts, newId(i), world(i)) {
      assert RoundOf(rounds[i], targets[i], ts, newId(i), world(i));
    }
  }

  /** The second half of a run: store the rounds if their configuration still
      holds, then mark their targets completed if it still holds. */
  method StoreAndMark(m: ProbeTargetManager, spool: Store.ProbeSpool, batch: Batch, stamped: seq<ProbeRound>, at: int, later: int,
                      random: string, temp: string, partial: string, free: nat,
                      beforeStore: seq<Update>, beforeMark: seq<Update>)
    returns (end: RunEnd, ghost id: string)
    requires m.Valid() && spool.Valid() && 0 < at <= MAX_INT64
    requires batch.targets != m.backing
    requires SpoolModel.IsRandom(random) && Store.FreshId(spool.Now(), SpoolModel.MakeId(at, random))
    requires SpoolModel.IsTempName(temp) && temp !in spool.pending
    modifies m, m.backing, m.scheduler, spool
    ensures m.Valid() && spool.Valid() && !end.Empty?
    ensures end.Stale? <==> !(batch.generation == old(m.generation) && batch.version == old(m.version))
    ensures end.Stale? ==> spool.Now() == old(spool.Now())
    ensures end.StoredMarked? || end.StoredUnmarked? ==> StoredRounds(spool, id, stamped)
    ensures spool.faults >= old(spool.faults)
    // Only a failing call or a full spool keeps a current batch from being
    // stored, and only a change of the configuration from being marked.
    ensures end.NotStored? ==>
              spool.faults > old(spool.faults) || !Store.Accepts(spool.u, old(spool.pending), stamped, at, free)
    ensures end.StoredUnmarked? ==>
              var c := AfterAll(AfterAll(old(m.Held()), beforeStore), beforeMark);
              !(c.generation == batch.generation && c.version == batch.version)
    ensures !end.StoredMarked? ==> old(m.scheduler).lastCompleted == old(m.scheduler.lastCompleted)
    ensures end.StoredMarked? ==>
              var c := AfterAll(old(m.Held()), beforeStore);
              && m.Held() == AfterAll(c, beforeMark)
              && m.generation == batch.generation && m.version == batch.version
              && (ChangeCount(old(m.Held()), beforeStore) == 0 && ChangeCount(c, beforeMark) == 0 ==>
                    m.scheduler == old(m.scheduler)
                    && m.scheduler.lastCompleted == Marked(old(m.scheduler.lastCompleted), old(batch.targets[..]), later))
  {
    hide After, AfterAll, ChangeCount, Marked, BatchBody, Reports, Store.FreshId, Store.Accepts, SpoolModel.MakeId,
         SpoolModel.IsRandom, SpoolModel.IsTempName, Store.NoAckSince, Store.Kept, Store.HasRoom, SpoolModel.Encode,
         SpoolModel.FileName;
    id := "";
    var current := m.IsCurrent(batch);
    if !current {
      return Stale, id;
    }
    ApplyAll(m, beforeStore);
    var stored := spool.Enqueue(stamped, at, random, temp, partial, free);
    if stored.Refused? {
      return NotStored, id;
    }
    id := stored.id;
    ApplyAll(m, beforeMark);
    var marked := m.MarkCompleted(batch, later);
    return if marked then StoredMarked else StoredUnmarked, id;
  }

  /** runDueProbes with the updates other workers apply while the probes run,
      between the currency check and the write, and before the completion mark.
      The run begins at `now`, the spool stores at `at` by its own clock, and
      completion is marked at `later`.
      What is marked completed was probed and stored first: the same targets in
      the same order, under the version they were cut from. */
  method RunDueProbes(m: ProbeTargetManager, spool: Store.ProbeSpool, now: int, at: int, later: int,
                      newId: nat -> string, world: nat -> World, random: string, temp: string, partial: string,
                      free: nat, whileProbing: seq<Update>, beforeStore: seq<Update>, beforeMark: seq<Update>)
    returns (end: RunEnd, ghost rounds: seq<ProbeRound>, ghost id: string)
    requires m.Valid() && spool.Valid() && 0 < at <= MAX_INT64
    requires SpoolModel.IsRandom(random) && Store.FreshId(spool.Now(), SpoolModel.MakeId(at, random))
    requires SpoolModel.IsTempName(temp) && temp !in spool.pending
    modifies m, m.backing, m.scheduler, spool
    ensures m.Valid() && spool.Valid()
    ensures var targets := Limited(DueTargets(old(m.scheduler.lastCompleted), old(m.backing[..m.length]), now));
            && (end.Empty? <==> targets == [])
            && (end.StoredMarked? || end.StoredUnmarked? ==>
                  && RoundsOf(rounds, targets, now, newId, world)
                  && (forall r :: r in rounds ==> r.configVersion == old(m.version))
                  && StoredRounds(spool, id, rounds)
                  && StoredRun(spool, id, targets, old(m.version), now, newId, world))
            && (end.StoredMarked? && |whileProbing| + |beforeStore| + |beforeMark| < GENERATIONS ==>
                  && m.version == old(m.version) && m.Held().targets == old(m.Held()).targets
                  && m.scheduler == old(m.scheduler)
                  && m.scheduler.lastCompleted == Marked(old(m.scheduler.lastCompleted), targets, later))
    // And it is all done if nothing fails or changes and the spool has room.
    ensures |whileProbing| < GENERATIONS && !end.Empty? ==>
              (end.Stale? <==> ChangeCount(old(m.Held()), whileProbing) != 0)
    ensures !end.Empty? && ChangeCount(old(m.Held()), whileProbing + beforeStore + beforeMark) == 0
            && spool.faults == old(spool.faults) && Store.Accepts(spool.u, old(spool.pending), rounds, at, free) ==>
              end.StoredMarked?
    // Nothing is marked unless it was stored.
    ensures !end.StoredMarked? ==> old(m.scheduler).lastCompleted == old(m.scheduler.lastCompleted)
    // A batch whose configuration was replaced while it was probed is not stored.
    ensures end.Stale? ==> spool.Now() == old(spool.Now())
  {
    hide After, AfterAll, ChangeCount, Limited, DueTargets, Marked, RoundsOf, StoredRounds, StoredRun, Store.FreshId, SpoolModel.MakeId,
         SpoolModel.IsRandom, SpoolModel.IsTempName;
    rounds, id := [], "";
    ghost var c0 := m.Held();
    var batch := m.Due(now);
    ghost var targets := batch.targets[..];
    LimitIdempotent(DueTargets(m.scheduler.lastCompleted, m.backing[..m.length], now));
    if batch.targets.Length == 0 {
      return Empty, rounds, id;
    }
    var probed := ProbeTargets(batch.targets[..], now, newId, world);
    ApplyAll(m, whileProbing);
    ghost var c1 := m.Held();
    var stamped := StampVersion(probed, batch.version);
    StampedRounds(probed, stamped, targets, now, batch.version, newId, world);
    rounds := stamped;
    end, id := StoreAndMark(m, spool, batch, stamped, at, later, random, temp, partial, free, beforeStore, beforeMark);
    if end.StoredMarked? || end.StoredUnmarked? {
      RunStored(spool, id, rounds, targets, batch.version, now, newId, world);
    }
    WhenUnchanged(c0, whileProbing, beforeStore, beforeMark);
    if end.StoredMarked? && |whileProbing| + |beforeStore| + |beforeMark| < GENERATIONS {
      ghost var c2 := AfterAll(c1, beforeStore);
      UnchangedRun(c0, whileProbing, beforeStore, beforeMark, c1, c2, m.Held());
    }
  }

  /** What no update changed is what a batch was cut from. */
  lemma WhenUnchanged(c: Config, first: seq<Update>, second: seq<Update>, third: seq<Update>)
    requires WellFormed(c)
    ensures |first| < GENERATIONS ==>
              (AfterAll(c, first).generation == c.generation && AfterAll(c, first).version == c.version
               <==> ChangeCount(c, first) == 0)
    ensures ChangeCount(c, first + second + third) == 0 ==>
              var last := AfterAll(AfterAll(AfterAll(c, first), second), third);
              && AfterAll(c, first).generation == c.generation && AfterAll(c, first).version == c.version
              && last.generation == c.generation && last.version == c.version
  {
    hide *;
    ThreeParts(first, second, third);
    if |first| < GENERATIONS {
      CurrentIffUnchanged(c, first);
    }
    HistoryParts(c, first + second + third, |first|);
    HistoryParts(AfterAll(c, first), second + third, |second|);
    NoChange(c, first);
    NoChange(c, first + second + third);
  }

  lemma NoChange(c: Config, updates: seq<Update>)
    requires WellFormed(c)
    ensures ChangeCount(c, updates) == 0 ==>
              AfterAll(c, updates).generation == c.generation && AfterAll(c, updates).version == c.version
  {
    ConfigHistory(c, updates);
    hide AfterAll, ChangeCount;
  }

  lemma ThreeParts<T>(a: seq<T>, b: seq<T>, c: seq<T>)
    ensures (a + b + c)[..|a|] == a && (a + b + c)[|a|..] == b + c
    ensures (b + c)[..|b|] == b && (b + c)[|b|..] == c
  {
  }

  /** A run that began and ended in one generation saw no change. */
  lemma UnchangedRun(c0: Config, first: seq<Update>, second: seq<Update>, third: seq<Update>, c1: Config, c2: Config, c3: Config)
    requires WellFormed(c0) && |first| + |second| + |third| < GENERATIONS
    requires c1 == AfterAll(c0, first) && c2 == AfterAll(c1, second) && c3 == AfterAll(c2, third)
    requires c1.generation == c0.generation && c3.generation == c0.generation
    ensures ChangeCount(c0, first) == ChangeCount(c1, second) == ChangeCount(c2, third) == 0
    ensures c3.version == c0.version && c3.targets == c0.targets
  {
    hide *;
    SameGenerationSameConfig(c0, first);
    assert WellFormed(c1) by { ConfigHistory(c0, first); }
    Halves(second, third);
    HistoryParts(c1, second + third, |second|);
    SameGenerationSameConfig(c1, second + third);
  }

  lemma Halves<T>(a: seq<T>, b: seq<T>)
    ensures (a + b)[..|a|] == a && (a + b)[|a|..] == b
  {
  }
}
