/** The versioned probe configuration (cmd/zeno-agent/main.go). */
module TargetManager {
  import opened ProbeBudget
  import opened ProbeScheduling

  const GENERATIONS: nat := 0x1_0000_0000_0000_0000

  /** The configuration part of the manager; `generation` is a uint64. */
  datatype Config = Config(targets: seq<ProbeTarget>, version: int, initialized: bool, generation: nat)

  const NoConfig := Config([], 0, false, 0)

  datatype Update = Update(targets: seq<ProbeTarget>, version: int)

  /** The version checks of an update against what is held. */
  predicate Acceptable(c: Config, u: Update) {
    && u.version >= 0
    && (c.initialized ==>
          && !(c.version > 0 && u.version == 0)
          && u.version >= c.version
          && (c.version > 0 && u.version == c.version ==> c.targets == Sanitized(u.targets)))
  }

  predicate Changes(c: Config, u: Update) {
    u.version != c.version || c.targets != Sanitized(u.targets)
  }

  /** What an update makes of the configuration; a rejected one nothing. */
  function After(c: Config, u: Update): Config {
    if !Acceptable(c, u) then c
    else if Changes(c, u) then Config(Sanitized(u.targets), u.version, true, (c.generation + 1) % GENERATIONS)
    else c.(initialized := true)
  }

  // ----------------------------------------------------------------- history

  function AfterAll(c: Config, updates: seq<Update>): Config {
    if updates == [] then c
    else After(AfterAll(c, updates[..|updates| - 1]), updates[|updates| - 1])
  }

  /** How many of the updates were accepted and changed something. */
  function ChangeCount(c: Config, updates: seq<Update>): (n: nat)
    ensures n <= |updates|
  {
    if updates == [] then 0
    else
      var before := AfterAll(c, updates[..|updates| - 1]);
      var u := updates[|updates| - 1];
      ChangeCount(c, updates[..|updates| - 1]) + (if Acceptable(before, u) && Changes(before, u) then 1 else 0)
  }

  predicate WellFormed(c: Config) {
    && c.version >= 0
    && c.generation < GENERATIONS
    && (!c.initialized ==> c.version == 0 && c.targets == [])
  }

  /** `later` can follow `earlier`: the version does not fall, a positive one
      stands for one list of targets, and what was initialized stays so. */
  predicate Follows(earlier: Config, later: Config) {
    && earlier.version <= later.version
    && (earlier.initialized ==> later.initialized)
    && (earlier.version == later.version && earlier.version > 0 ==> earlier.targets == later.targets)
  }

  lemma AfterFollows(c: Config, u: Update)
    requires WellFormed(c)
    ensures WellFormed(After(c, u)) && Follows(c, After(c, u))
    ensures if Acceptable(c, u) && Changes(c, u) then After(c, u).generation == (c.generation + 1) % GENERATIONS
            else After(c, u) == c.(initialized := After(c, u).initialized)
  {
    hide Sanitized;
  }

  lemma FollowsTransitive(a: Config, b: Config, c: Config)
    requires Follows(a, b) && Follows(b, c)
    ensures Follows(a, c)
  {
  }

  lemma CountOneMore(start: nat, n: nat)
    ensures ((start + n) % GENERATIONS + 1) % GENERATIONS == (start + n + 1) % GENERATIONS
  {
  }

  /** Over any updates, accepted or not, between any two moments: the version
      never falls, 0 never follows a positive version, a positive version keeps
      one list of targets, and the generation counts the changes. */
  lemma {:induction false} ConfigHistory(c: Config, updates: seq<Update>)
    requires WellFormed(c)
    ensures WellFormed(AfterAll(c, updates))
    ensures Follows(c, AfterAll(c, updates))
    ensures AfterAll(c, updates).generation == (c.generation + ChangeCount(c, updates)) % GENERATIONS
    ensures ChangeCount(c, updates) == 0 ==>
              AfterAll(c, updates).version == c.version && AfterAll(c, updates).targets == c.targets
  {
    hide After, Acceptable, Changes;
    if updates != [] {
      var shorter, u := updates[..|updates| - 1], updates[|updates| - 1];
      ConfigHistory(c, shorter);
      AfterFollows(AfterAll(c, shorter), u);
      FollowsTransitive(c, AfterAll(c, shorter), AfterAll(c, updates));
      CountOneMore(c.generation, ChangeCount(c, shorter));
    }
  }

  /** So two moments of one history with equal generations hold the same
      configuration, unless 2^64 changes lie between them. */
  lemma SameGenerationSameConfig(c: Config, updates: seq<Update>)
    requires WellFormed(c) && |updates| < GENERATIONS
    requires AfterAll(c, updates).generation == c.generation
    ensures ChangeCount(c, updates) == 0
    ensures AfterAll(c, updates).version == c.version && AfterAll(c, updates).targets == c.targets
  {
    hide AfterAll, ChangeCount, Follows;
    ConfigHistory(c, updates);
    NoFullTurn(c.generation, ChangeCount(c, updates));
  }

  /** A batch that was cut then is current now exactly if nothing changed in
      between. */
  lemma CurrentIffUnchanged(c: Config, updates: seq<Update>)
    requires WellFormed(c) && |updates| < GENERATIONS
    ensures AfterAll(c, updates).generation == c.generation && AfterAll(c, updates).version == c.version
            <==> ChangeCount(c, updates) == 0
  {
    hide AfterAll, ChangeCount, Follows;
    ConfigHistory(c, updates);
    if AfterAll(c, updates).generation == c.generation {
      SameGenerationSameConfig(c, updates);
    }
  }

  /** Fewer changes than there are generations do not lead back to the first. */
  lemma NoFullTurn(start: nat, n: nat)
    requires start < GENERATIONS && n < GENERATIONS && start == (start + n) % GENERATIONS
    ensures n == 0
  {
  }

  /** Any part of a history is a history, so the two lemmas above speak about
      any two of its moments; the changes of the parts add up. */
  lemma {:induction false} HistoryParts(c: Config, updates: seq<Update>, k: nat)
    requires k <= |updates|
    ensures AfterAll(c, updates) == AfterAll(AfterAll(c, updates[..k]), updates[k..])
    ensures ChangeCount(c, updates) == ChangeCount(c, updates[..k]) + ChangeCount(AfterAll(c, updates[..k]), updates[k..])
  {
    hide After, Acceptable, Changes;
    if k == |updates| {
      assert updates[..k] == updates;
    } else {
      var shorter := updates[..|updates| - 1];
      HistoryParts(c, shorter, k);
      assert shorter[..k] == updates[..k] && updates[k..][..|updates| - k - 1] == shorter[k..];
    }
  }

  // ------------------------------------------------------- what is held

  /** Which update is the last that was accepted; none if it is -1. */
  ghost predicate LastAccepted(c: Config, updates: seq<Update>, k: int) {
    && -1 <= k < |updates|
    && (k >= 0 ==> Acceptable(AfterAll(c, updates[..k]), updates[k]))
    && (forall i :: k < i < |updates| ==> !Acceptable(AfterAll(c, updates[..i]), updates[i]))
  }

  /** What is held is what the last accepted update brought, sanitized, under its
      version; with none accepted it is what was held before. */
  lemma {:induction false} HeldIsLastAccepted(c: Config, updates: seq<Update>) returns (k: int)
    ensures LastAccepted(c, updates, k)
    ensures var held := AfterAll(c, updates);
            if k < 0 then held == c
            else held.targets == Sanitized(updates[k].targets) && held.version == updates[k].version && held.initialized
  {
    hide Sanitized, Acceptable;
    k := -1;
    if updates != [] {
      var shorter := updates[..|updates| - 1];
      k := HeldIsLastAccepted(c, shorter);
      forall i | 0 <= i < |updates| ensures updates[..i] == shorter[..i] {
      }
      AfterTakes(AfterAll(c, shorter), updates[|updates| - 1]);
      if Acceptable(AfterAll(c, shorter), updates[|updates| - 1]) {
        k := |updates| - 1;
      }
    }
  }

  /** One update: taken over in full, or not at all. */
  lemma AfterTakes(c: Config, u: Update)
    ensures if Acceptable(c, u)
            then After(c, u).targets == Sanitized(u.targets) && After(c, u).version == u.version && After(c, u).initialized
            else After(c, u) == c
  {
    hide Sanitized, Acceptable;
  }

  /** There is only one last accepted update. */
  lemma LastAcceptedUnique(c: Config, updates: seq<Update>, j: int, k: int)
    requires LastAccepted(c, updates, j) && LastAccepted(c, updates, k)
    ensures j == k
  {
    hide Acceptable, AfterAll;
  }

  // ----------------------------------------------------------------- manager

  /** A batch of due targets, with the configuration it was cut from. */
  datatype Batch = Batch(targets: array<ProbeTarget>, version: int, generation: nat)

  class ProbeTargetManager {
    /** The slice `targets` is a prefix of this array, which an update
        overwrites in place when the new list fits. */
    var backing: array<ProbeTarget>
    var length: nat
    var version: int
    var initialized: bool
    var generation: nat
    var scheduler: ProbeScheduler

    ghost predicate Valid()
      reads this
    {
      length <= backing.Length && WellFormedFields()
    }

    ghost predicate WellFormedFields()
      reads this
    {
      version >= 0 && generation < GENERATIONS && (!initialized ==> version == 0 && length == 0)
    }

    ghost function Held(): Config
      reads this, backing
      requires Valid()
    {
      Config(backing[..length], version, initialized, generation)
    }

    constructor ()
      ensures Valid() && Held() == NoConfig && scheduler.lastCompleted == map[]
      ensures fresh(backing) && fresh(scheduler)
    {
      backing := new ProbeTarget[0];
      length, version, initialized, generation := 0, 0, false, 0;
      scheduler := new ProbeScheduler();
    }

    method SameAsHeld(list: seq<ProbeTarget>) returns (same: bool)
      requires Valid()
      ensures same <==> backing[..length] == list
    {
      if length != |list| {
        return false;
      }
      for k := 0 to length
        invariant forall i :: 0 <= i < k ==> backing[i] == list[i]
      {
        if backing[k] != list[k] {
          return false;
        }
      }
      return true;
    }

    /** append(m.targets[:0], list...) */
    method Overwrite(list: seq<ProbeTarget>)
      requires length <= backing.Length
      modifies this`backing, this`length, backing
      ensures length == |list| <= backing.Length && backing[..length] == list
      ensures backing == old(backing) || fresh(backing)
    {
      if |list| <= backing.Length {
        for k := 0 to |list|
          invariant backing == old(backing)
          invariant backing[..k] == list[..k]
          modifies backing
        {
          backing[k] := list[k];
        }
      } else {
        backing := new ProbeTarget[|list|](i requires 0 <= i < |list| => list[i]);
      }
      length := |list|;
    }

    /** Accepts or rejects an update; a change starts a new scheduler. */
    method Apply(targets: seq<ProbeTarget>, newVersion: int) returns (ok: bool)
      requires Valid()
      modifies this, backing
      ensures Valid()
      ensures ok <==> Acceptable(old(Held()), Update(targets, newVersion))
      ensures ok <==>
                && newVersion >= 0
                && (old(initialized) ==>
                      || newVersion > old(version)
                      || (newVersion == old(version) && (newVersion == 0 || old(backing[..length]) == Sanitized(targets))))
      ensures Held() == After(old(Held()), Update(targets, newVersion))
      ensures ok ==> backing[..length] == Sanitized(targets) && version == newVersion && initialized
      ensures !ok ==> Held() == old(Held())
      ensures backing == old(backing) || fresh(backing)
      ensures if ok && Changes(old(Held()), Update(targets, newVersion))
              then fresh(scheduler) && scheduler.lastCompleted == map[]
              else scheduler == old(scheduler)
      ensures ok && (newVersion != old(version) || old(backing[..length]) != Sanitized(targets)) ==>
                fresh(scheduler) && generation == (old(generation) + 1) % GENERATIONS
    {
      hide Sanitized;
      if newVersion < 0 {
        return false;
      }
      var sanitized := SanitizeProbeTargets(targets);
      var same := SameAsHeld(sanitized);
      if initialized {
        if version > 0 && newVersion == 0 {
          return false;
        }
        if newVersion < version {
          return false;
        }
        if version > 0 && newVersion == version && !same {
          return false;
        }
      }
      var changed := newVersion != version || !same;
      Overwrite(sanitized);
      initialized := true;
      if changed {
        scheduler := new ProbeScheduler();
        version := newVersion;
        generation := (generation + 1) % GENERATIONS;
      }
      return true;
    }

    /** The targets to probe now, in memory of their own: later updates, which
        overwrite only the manager's memory, cannot reach them. */
    method Due(now: int) returns (batch: Batch)
      requires Valid()
      ensures batch.targets[..] == Limited(DueTargets(scheduler.lastCompleted, backing[..length], now))
      ensures batch.version == version && batch.generation == generation
      ensures fresh(batch.targets)
    {
      if length == 0 {
        var none := new ProbeTarget[0];
        LimitBudgets([]);
        return Batch(none, version, generation);
      }
      var list := backing[..length];
      var due := scheduler.Due(list, now);
      var limited := LimitProbeTargetsForRun(due);
      var copy := new ProbeTarget[|limited|](i requires 0 <= i < |limited| => limited[i]);
      return Batch(copy, version, generation);
    }

    method IsCurrent(batch: Batch) returns (current: bool)
      ensures current <==> batch.generation == generation && batch.version == version
    {
      return batch.generation == generation && batch.version == version;
    }

    /** Marks a batch completed if its configuration still holds. */
    method MarkCompleted(batch: Batch, now: int) returns (marked: bool)
      modifies scheduler
      ensures marked <==> batch.generation == generation && batch.version == version
      ensures scheduler.lastCompleted
              == if marked then Marked(old(scheduler.lastCompleted), batch.targets[..], now) else old(scheduler.lastCompleted)
    {
      if batch.generation != generation || batch.version != version {
        return false;
      }
      scheduler.MarkCompleted(batch.targets[..], now);
      return true;
    }
  }

  /** Whatever updates come while a batch is out, its targets stay what they
      were. */
  method BatchOutlivesUpdates(m: ProbeTargetManager, now: int, updates: seq<Update>) returns (batch: Batch)
    requires m.Valid()
    modifies m, m.backing
    ensures m.Valid()
    ensures m.Held() == AfterAll(old(m.Held()), updates)
    ensures batch.targets[..] == Limited(DueTargets(old(m.scheduler.lastCompleted), old(m.backing[..m.length]), now))
    ensures batch.version == old(m.version) && batch.generation == old(m.generation)
  {
    hide After, Acceptable, Changes, Limited, DueTargets, Sanitized;
    batch := m.Due(now);
    ghost var out := batch.targets[..];
    for k := 0 to |updates|
      invariant m.Valid() && batch.targets[..] == out && batch.targets != m.backing
      invariant m.backing == old(m.backing) || fresh(m.backing)
      invariant m.Held() == AfterAll(old(m.Held()), updates[..k])
    {
      assert updates[..k + 1][..k] == updates[..k];
      var ok := m.Apply(updates[k].targets, updates[k].version);
    }
    assert updates[..|updates|] == updates;
  }
}
