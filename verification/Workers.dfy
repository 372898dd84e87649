/** The workers that share one configuration: presence connections, the poller
    and the uploader refresh it, probing runs use it
    (cmd/zeno-agent/main.go, internal/agent/presence.go).

    Each event is one atomic step of one worker: what it does under the
    manager's mutex, a gate taken or given back, or a message. Workers are
    numbered, there may be any number of each kind, and their steps interleave
    in any order. */
module Workers {
  import opened Text
  import opened ProbeBudget
  import opened ProbeScheduling
  import opened TargetManager

  /** Where a call of refreshProbeConfig stands; `presence` if a connection will
      acknowledge its result. */
  datatype Refresher =
    | Asked(requested: int, presence: bool)
    | Queued(requested: int, presence: bool)
    | Holding(requested: int, presence: bool)
    | Fetching(requested: int, presence: bool)
    | Fetched(requested: int, presence: bool, update: Update)
    | Leaving(requested: int, presence: bool, result: Option<int>)
    | Returned(requested: int, presence: bool, version: int)

  /** Inside the refresh gate. */
  predicate Inside(r: Refresher) {
    r.Holding? || r.Fetching? || r.Fetched? || r.Leaving?
  }

  /** A batch cut after the first `cut` accepted updates. */
  datatype Cut = Cut(targets: seq<ProbeTarget>, version: int, generation: nat, cut: nat, due: map<string, int>, at: int)

  datatype Runner =
    | Probing(batch: Cut)
    | Checked(batch: Cut, at: nat)
    | Stored(batch: Cut, record: nat)

  /** A stored batch, of which the spool gets targets and version, and how many
      updates had been accepted when its configuration was found to hold. */
  datatype Record = Record(batch: Cut, checked: nat)

  datatype Ack = Ack(requested: int, version: int)
  datatype Completion = Completion(batch: Cut, record: nat, after: nat)

  /** `updates` are the accepted ones, in order; `done` is the scheduler's map.
      The last three only grow. */
  datatype State = State(
    updates: seq<Update>, done: map<string, int>,
    refreshGate: bool, refreshers: map<nat, Refresher>,
    runGate: bool, runners: map<nat, Runner>,
    acks: seq<Ack>, records: seq<Record>, completions: seq<Completion>)

  const Start := State([], map[], true, map[], true, map[], [], [], [])

  function Held(updates: seq<Update>): Config {
    AfterAll(NoConfig, updates)
  }

  datatype Event =
    | Ask(worker: nat, requested: int, presence: bool)
    | CheckVersion(worker: nat)
    | GiveUp(worker: nat)
    | TakeGate(worker: nat)
    | CheckAgain(worker: nat)
    | Receive(worker: nat, update: Update)
    | FetchFails(worker: nat)
    | ApplyUpdate(worker: nat)
    | Leave(worker: nat)
    | Answer(worker: nat)
    | BeginRun(worker: nat, now: int)
    | CheckBatch(worker: nat)
    | StoreBatch(worker: nat)
    | StoreFails(worker: nat)
    | MarkBatch(worker: nat, now: int)

  predicate IsRefresh(e: Event) {
    !(e.BeginRun? || e.CheckBatch? || e.StoreBatch? || e.StoreFails? || e.MarkBatch?)
  }

  predicate Enabled(s: State, e: Event) {
    if IsRefresh(e) then
      if e.Ask? then
        e.worker !in s.refreshers && (e.presence ==> e.requested >= 0)
      else
        && e.worker in s.refreshers
        && var r := s.refreshers[e.worker];
           match e {
             case CheckVersion(_) => r.Asked?
             case GiveUp(_) => r.Queued?
             case TakeGate(_) => r.Queued? && s.refreshGate
             case CheckAgain(_) => r.Holding?
             case Receive(_, _) => r.Fetching?
             case FetchFails(_) => r.Fetching?
             case ApplyUpdate(_) => r.Fetched?
             case Leave(_) => r.Leaving?
             case Answer(_) => r.Returned?
             case _ => false
           }
    else if e.BeginRun? then
      e.worker !in s.runners && s.runGate
    else
      && e.worker in s.runners
      && var r := s.runners[e.worker];
         match e {
           case CheckBatch(_) => r.Probing?
           case StoreBatch(_) => r.Checked?
           case StoreFails(_) => r.Checked?
           case MarkBatch(_, _) => r.Stored?
           case _ => false
         }
  }

  /** A refresh for a version that is already held returns that version. */
  predicate UpToDate(c: Config, requested: int) {
    requested > 0 && c.initialized && c.version >= requested
  }

  function Refreshed(s: State, worker: nat, r: Refresher): State {
    s.(refreshers := s.refreshers[worker := r])
  }

  function NextRefresh(s: State, e: Event): State {
    var c := Held(s.updates);
    if e.Ask? then Refreshed(s, e.worker, Asked(e.requested, e.presence))
    else if e.worker !in s.refreshers then s
    else
      var r := s.refreshers[e.worker];
      match e
      case CheckVersion(w) =>
        if UpToDate(c, r.requested) then Refreshed(s, w, Returned(r.requested, r.presence, c.version))
        else if r.requested < 0 then s.(refreshers := s.refreshers - {w})
        else Refreshed(s, w, Queued(r.requested, r.presence))
      case GiveUp(w) => s.(refreshers := s.refreshers - {w})
      case TakeGate(w) => Refreshed(s, w, Holding(r.requested, r.presence)).(refreshGate := false)
      case CheckAgain(w) =>
        if UpToDate(c, r.requested) then Refreshed(s, w, Leaving(r.requested, r.presence, Some(c.version)))
        else Refreshed(s, w, Fetching(r.requested, r.presence))
      case Receive(w, update) => Refreshed(s, w, Fetched(r.requested, r.presence, update))
      case FetchFails(w) => Refreshed(s, w, Leaving(r.requested, r.presence, None))
      case ApplyUpdate(w) =>
        if !r.Fetched? || (r.requested > 0 && r.update.version < r.requested) || !Acceptable(c, r.update) then
          Refreshed(s, w, Leaving(r.requested, r.presence, None))
        else
          Refreshed(s, w, Leaving(r.requested, r.presence, Some(r.update.version))).(
            updates := s.updates + [r.update],
            done := if Changes(c, r.update) then map[] else s.done)
      case Leave(w) =>
        if r.Leaving? && r.result.Some? then
          Refreshed(s, w, Returned(r.requested, r.presence, r.result.value)).(refreshGate := true)
        else s.(refreshers := s.refreshers - {w}, refreshGate := true)
      case Answer(w) =>
        s.(refreshers := s.refreshers - {w},
           acks := if r.Returned? && r.presence && r.version >= r.requested then s.acks + [Ack(r.requested, r.version)]
                   else s.acks)
      case _ => s
  }

  predicate IsCurrent(c: Config, batch: Cut) {
    batch.generation == c.generation && batch.version == c.version
  }

  function NextRun(s: State, e: Event): State {
    var c := Held(s.updates);
    if e.BeginRun? then
      var targets := if c.targets == [] then [] else Limited(DueTargets(s.done, c.targets, e.now));
      if targets == [] then s
      else
        s.(runGate := false,
           runners := s.runners[e.worker := Probing(Cut(targets, c.version, c.generation, |s.updates|, s.done, e.now))])
    else if e.worker !in s.runners then s
    else
      var r := s.runners[e.worker];
      match e
      case CheckBatch(w) =>
        if IsCurrent(c, r.batch) then s.(runners := s.runners[w := Checked(r.batch, |s.updates|)])
        else s.(runners := s.runners - {w}, runGate := true)
      case StoreBatch(w) =>
        s.(runners := s.runners[w := Stored(r.batch, |s.records|)],
           records := s.records + [Record(r.batch, if r.Checked? then r.at else 0)])
      case MarkBatch(w, now) =>
        var left := s.(runners := s.runners - {w}, runGate := true);
        if r.Stored? && IsCurrent(c, r.batch) then
          left.(done := Marked(s.done, r.batch.targets, now),
                completions := s.completions + [Completion(r.batch, r.record, |s.updates|)])
        else left
      case StoreFails(w) => s.(runners := s.runners - {w}, runGate := true)
      case _ => s
  }

  function Next(s: State, e: Event): State {
    if IsRefresh(e) then NextRefresh(s, e) else NextRun(s, e)
  }

  function After(events: seq<Event>): State {
    if events == [] then Start else Next(After(events[..|events| - 1]), events[|events| - 1])
  }

  predicate Run(events: seq<Event>) {
    events == []
    || (Run(events[..|events| - 1]) && Enabled(After(events[..|events| - 1]), events[|events| - 1]))
  }

  // ----------------------------------------------------------------- history

  /** An update with this version was accepted, and the manager holds one of at
      least this version. */
  predicate Applied(updates: seq<Update>, version: int) {
    && Held(updates).initialized && Held(updates).version >= version
    && exists i :: 0 <= i < |updates| && updates[i].version == version
  }

  lemma AppliedStays(updates: seq<Update>, more: seq<Update>, version: int)
    requires Applied(updates, version)
    ensures Applied(updates + more, version)
  {
    hide AfterAll, ChangeCount;
    assert (updates + more)[..|updates|] == updates && (updates + more)[|updates|..] == more;
    HistoryParts(NoConfig, updates + more, |updates|);
    ConfigHistory(NoConfig, updates);
    ConfigHistory(Held(updates), more);
    var i :| 0 <= i < |updates| && updates[i].version == version;
    assert (updates + more)[i].version == version;
  }

  /** An accepted update is held right after it was applied. */
  lemma AppliedNow(updates: seq<Update>, u: Update)
    requires Acceptable(Held(updates), u)
    ensures Applied(updates + [u], u.version)
  {
    hide Acceptable;
    assert (updates + [u])[..|updates|] == updates;
    assert (updates + [u])[|updates|].version == u.version;
  }

  // --------------------------------------------------------------- refreshing

  /** Whoever is about to return a version, or has returned one, returns one
      that was asked for and is held. */
  predicate ResultRight(updates: seq<Update>, r: Refresher) {
    match r
    case Leaving(requested, _, Some(version)) => version >= requested && Applied(updates, version)
    case Returned(requested, _, version) => version >= requested && Applied(updates, version)
    case _ => r.Asked? || r.requested >= 0
  }

  ghost predicate RefreshRight(s: State) {
    && (forall w :: w in s.refreshers ==> ResultRight(s.updates, s.refreshers[w]))
    && (forall k :: 0 <= k < |s.acks| ==>
          s.acks[k].version >= s.acks[k].requested && Applied(s.updates, s.acks[k].version))
  }

  /** The gate admits one. */
  ghost predicate GateRight(s: State) {
    && (s.refreshGate ==> forall w :: w in s.refreshers ==> !Inside(s.refreshers[w]))
    && (forall v, w :: v in s.refreshers && w in s.refreshers && Inside(s.refreshers[v]) && Inside(s.refreshers[w]) ==> v == w)
  }

  lemma TakeGateRight(s: State, w: nat)
    requires GateRight(s) && Enabled(s, TakeGate(w))
    ensures GateRight(Next(s, TakeGate(w)))
  {
  }

  /** Any other step leaves nobody inside who was not, and nobody if it gives
      the gate back. */
  lemma StepGateRight(s: State, e: Event)
    requires GateRight(s) && Enabled(s, e)
    ensures GateRight(Next(s, e))
  {
    hide Held, UpToDate, Acceptable, Changes, GateRight, Inside;
    if !IsRefresh(e) {
      RunLeavesRefresh(s, e);
      SameGate(s, Next(s, e));
    } else if e.TakeGate? {
      TakeGateRight(s, e.worker);
    } else {
      OthersLeft(s, e);
      FewerInside(s, Next(s, e), e.worker);
    }
  }

  lemma SameGate(s: State, t: State)
    requires GateRight(s) && t.refreshers == s.refreshers && t.refreshGate == s.refreshGate
    ensures GateRight(t)
  {
  }

  /** A step of a refresh changes nobody else's place. */
  lemma OthersStay(s: State, e: Event)
    requires IsRefresh(e)
    ensures forall w :: w in Next(s, e).refreshers && w != e.worker ==>
              w in s.refreshers && Next(s, e).refreshers[w] == s.refreshers[w]
  {
    hide Held, UpToDate, Acceptable, Changes, Inside;
  }

  lemma OthersLeft(s: State, e: Event)
    requires Enabled(s, e) && IsRefresh(e) && !e.TakeGate?
    ensures var t := Next(s, e);
            && (forall w :: w in t.refreshers && w != e.worker ==> w in s.refreshers && t.refreshers[w] == s.refreshers[w])
            && (e.worker in t.refreshers && Inside(t.refreshers[e.worker]) ==>
                  e.worker in s.refreshers && Inside(s.refreshers[e.worker]))
            && (t.refreshGate && !s.refreshGate ==>
                  && e.worker in s.refreshers && Inside(s.refreshers[e.worker])
                  && (e.worker in t.refreshers ==> !Inside(t.refreshers[e.worker])))
  {
    OthersStay(s, e);
    hide Held, UpToDate, Acceptable, Changes;
  }

  lemma FewerInside(s: State, t: State, worker: nat)
    requires GateRight(s)
    requires forall w :: w in t.refreshers && w != worker ==> w in s.refreshers && t.refreshers[w] == s.refreshers[w]
    requires worker in t.refreshers && Inside(t.refreshers[worker]) ==> worker in s.refreshers && Inside(s.refreshers[worker])
    requires t.refreshGate && !s.refreshGate ==> worker in s.refreshers && Inside(s.refreshers[worker])
    requires t.refreshGate && !s.refreshGate && worker in t.refreshers ==> !Inside(t.refreshers[worker])
    ensures GateRight(t)
  {
    hide Inside;
  }

  lemma HeldVersion(updates: seq<Update>, requested: int)
    ensures UpToDate(Held(updates), requested) ==> Applied(updates, Held(updates).version)
  {
    hide AfterAll;
    var k := HeldIsLastAccepted(NoConfig, updates);
  }

  lemma AcceptedVersion(c: Config, u: Update)
    ensures Acceptable(c, u) ==> u.version >= 0
  {
  }

  /** A worker's own step leads to a right result from a right one. */
  lemma OwnResultRight(s: State, e: Event)
    requires Enabled(s, e) && IsRefresh(e) && !e.ApplyUpdate?
    requires e.worker in s.refreshers ==> ResultRight(s.updates, s.refreshers[e.worker])
    ensures var t := Next(s, e);
            && t.updates == s.updates
            && (e.worker in t.refreshers ==> ResultRight(t.updates, t.refreshers[e.worker]))
            && (t.acks == s.acks
                || exists ack :: t.acks == s.acks + [ack] && ack.version >= ack.requested && Applied(s.updates, ack.version))
  {
    HeldVersion(s.updates, if e.worker in s.refreshers then s.refreshers[e.worker].requested else 0);
    hide Held, Acceptable, Changes, Applied;
  }

  lemma StepResultRight(s: State, e: Event)
    requires RefreshRight(s) && Enabled(s, e) && IsRefresh(e) && !e.ApplyUpdate?
    ensures RefreshRight(Next(s, e))
  {
    hide Next, Enabled, ResultRight, Applied;
    OwnResultRight(s, e);
    OthersStay(s, e);
  }

  lemma ApplyResultRight(s: State, e: Event)
    requires RefreshRight(s) && Enabled(s, e) && e.ApplyUpdate?
    ensures RefreshRight(Next(s, e))
  {
    hide Held, Acceptable, Changes, Applied, UpToDate;
    var r := s.refreshers[e.worker];
    assert ResultRight(s.updates, r);
    var t := Next(s, e);
    if t.updates != s.updates {
      AppliedNow(s.updates, r.update);
      AcceptedVersion(Held(s.updates), r.update);
      forall w | w in s.refreshers ensures ResultRight(t.updates, s.refreshers[w]) {
        LaterResult(s.updates, r.update, s.refreshers[w]);
      }
      forall k | 0 <= k < |s.acks| ensures Applied(t.updates, s.acks[k].version) {
        AppliedStays(s.updates, [r.update], s.acks[k].version);
      }
    }
  }

  lemma LaterResult(updates: seq<Update>, u: Update, r: Refresher)
    requires ResultRight(updates, r)
    ensures ResultRight(updates + [u], r)
  {
    hide Applied;
    match r
    case Leaving(_, _, Some(version)) => AppliedStays(updates, [u], version);
    case Returned(_, _, version) => AppliedStays(updates, [u], version);
    case _ =>
  }

  lemma RunLeavesRefresh(s: State, e: Event)
    requires !IsRefresh(e)
    ensures Next(s, e).refreshers == s.refreshers && Next(s, e).refreshGate == s.refreshGate
    ensures Next(s, e).acks == s.acks && Next(s, e).updates == s.updates && s.records <= Next(s, e).records
  {
    hide Held, DueTargets, Limited, Marked, IsCurrent;
  }

  lemma StepRefreshRight(s: State, e: Event)
    requires RefreshRight(s) && Enabled(s, e)
    ensures RefreshRight(Next(s, e))
  {
    hide Next, Enabled, ResultRight, Applied;
    if !IsRefresh(e) {
      RunLeavesRefresh(s, e);
    } else if e.ApplyUpdate? {
      ApplyResultRight(s, e);
    } else {
      StepResultRight(s, e);
    }
  }

  lemma {:induction false} RefreshInv(events: seq<Event>)
    requires Run(events)
    ensures RefreshRight(After(events)) && GateRight(After(events))
  {
    if events != [] {
      hide RefreshRight, GateRight, Next, Enabled;
      RefreshInv(events[..|events| - 1]);
      StepRefreshRight(After(events[..|events| - 1]), events[|events| - 1]);
      StepGateRight(After(events[..|events| - 1]), events[|events| - 1]);
    }
  }

  lemma RefreshLeavesRuns(s: State, e: Event)
    requires IsRefresh(e)
    ensures Next(s, e).runners == s.runners && Next(s, e).completions == s.completions
    ensures s.updates <= Next(s, e).updates && s.acks <= Next(s, e).acks && s.records == Next(s, e).records
  {
    hide Held, Acceptable, Changes, UpToDate;
    if e.ApplyUpdate? {
      ApplyLeavesRuns(s, e);
    } else if e.Answer? {
      AnswerLeavesRuns(s, e);
    } else {
      assert Next(s, e).updates == s.updates && Next(s, e).acks == s.acks;
    }
  }

  lemma ApplyLeavesRuns(s: State, e: Event)
    requires e.ApplyUpdate?
    ensures var t := Next(s, e);
            && t.runners == s.runners && t.completions == s.completions && t.records == s.records && t.acks == s.acks
            && s.updates <= t.updates
  {
    hide Held, Acceptable, Changes;
  }

  lemma AnswerLeavesRuns(s: State, e: Event)
    requires e.Answer?
    ensures var t := Next(s, e);
            && t.runners == s.runners && t.completions == s.completions && t.records == s.records && t.updates == s.updates
            && s.acks <= t.acks
  {
    hide Held;
  }

  /** Nothing that was applied, acknowledged or stored is taken back. */
  lemma StepGrows(s: State, e: Event)
    ensures s.updates <= Next(s, e).updates && s.acks <= Next(s, e).acks && s.records <= Next(s, e).records
  {
    hide Next;
    if IsRefresh(e) {
      RefreshLeavesRuns(s, e);
    } else {
      RunLeavesRefresh(s, e);
    }
  }

  lemma {:induction false} RunGrows(events: seq<Event>, k: nat)
    requires k <= |events|
    ensures After(events[..k]).updates <= After(events).updates
    ensures After(events[..k]).acks <= After(events).acks
  {
    hide Next;
    if k == |events| {
      assert events[..k] == events;
    } else {
      var shorter := events[..|events| - 1];
      RunGrows(shorter, k);
      assert shorter[..k] == events[..k];
      StepGrows(After(shorter), events[|events| - 1]);
    }
  }

  /** Whatever the workers do in whatever order: an acknowledged version is at
      least the one that was asked for, and from the moment it is acknowledged
      on the manager is initialized and holds at least that version. */
  lemma AckSound(events: seq<Event>, k: nat, ack: Ack)
    requires Run(events) && k <= |events| && ack in After(events[..k]).acks
    ensures ack.version >= ack.requested
    ensures Held(After(events).updates).initialized && Held(After(events).updates).version >= ack.version
  {
    hide After, Run, Held, GateRight;
    RefreshInv(events);
    RunGrows(events, k);
    assert ack in After(events).acks;
  }

  /** The updates of a state are those that were accepted, each when it came. */
  ghost predicate AllAccepted(updates: seq<Update>) {
    forall i :: 0 <= i < |updates| ==> Acceptable(Held(updates[..i]), updates[i])
  }

  lemma OneMoreAccepted(updates: seq<Update>, u: Update)
    requires AllAccepted(updates) && Acceptable(Held(updates), u)
    ensures AllAccepted(updates + [u])
  {
    hide Held, Acceptable;
    assert (updates + [u])[..|updates|] == updates;
    forall i | 0 <= i < |updates| ensures (updates + [u])[..i] == updates[..i] {
    }
  }

  lemma {:induction false} UpdatesAccepted(events: seq<Event>)
    ensures AllAccepted(After(events).updates)
  {
    if events != [] {
      var s, e := After(events[..|events| - 1]), events[|events| - 1];
      UpdatesAccepted(events[..|events| - 1]);
      hide AllAccepted, Acceptable, Changes, Held;
      if e.ApplyUpdate? {
        ApplyAccepts(s, e);
        if Next(s, e).updates != s.updates {
          OneMoreAccepted(s.updates, s.refreshers[e.worker].update);
        }
      } else {
        OthersApplyNothing(s, e);
      }
    }
  }

  lemma ApplyAccepts(s: State, e: Event)
    requires e.ApplyUpdate?
    ensures Next(s, e).updates == s.updates
            || (&& e.worker in s.refreshers && s.refreshers[e.worker].Fetched?
                && Acceptable(Held(s.updates), s.refreshers[e.worker].update)
                && Next(s, e).updates == s.updates + [s.refreshers[e.worker].update])
  {
    hide Held, Acceptable, Changes;
  }

  lemma OthersApplyNothing(s: State, e: Event)
    requires !e.ApplyUpdate?
    ensures Next(s, e).updates == s.updates
  {
    hide Held, Acceptable, Changes, UpToDate, Limited, DueTargets, Marked, IsCurrent;
  }

  /** What is held is the last of them. */
  lemma HeldIsLast(updates: seq<Update>)
    requires AllAccepted(updates) && updates != []
    ensures var last := updates[|updates| - 1];
            Held(updates).targets == Sanitized(last.targets) && Held(updates).version == last.version && Held(updates).initialized
  {
    hide Sanitized, Acceptable, AfterAll;
    var k := HeldIsLastAccepted(NoConfig, updates);
  }

  /** A version once applied came with an update whose list was held; and if that
      is still the version, its list is. */
  predicate ListHeld(updates: seq<Update>, i: nat)
    requires i < |updates|
  {
    && Held(updates[..i + 1]).targets == Sanitized(updates[i].targets)
    && (Held(updates).version == updates[i].version > 0 ==> Held(updates).targets == Sanitized(updates[i].targets))
  }

  lemma AcceptedList(updates: seq<Update>, i: nat)
    requires AllAccepted(updates) && i < |updates|
    ensures ListHeld(updates, i)
  {
    hide Sanitized, AfterAll, AllAccepted, ChangeCount;
    var part := updates[..i + 1];
    AcceptedPart(updates, i + 1);
    HeldIsLast(part);
    HistoryParts(NoConfig, updates, i + 1);
    ConfigHistory(NoConfig, part);
    ConfigHistory(Held(part), updates[i + 1..]);
  }

  /** From an acknowledgement on the lists are right, too: the acknowledged
      version came with an update whose list was held, sanitized, and what is
      held now is the list of the last accepted update. */
  lemma AckedList(events: seq<Event>, k: nat, ack: Ack)
    requires Run(events) && k <= |events| && ack in After(events[..k]).acks
    ensures var updates := After(events).updates;
            && updates != []
            && Held(updates).targets == Sanitized(updates[|updates| - 1].targets)
            && Held(updates).version == updates[|updates| - 1].version
            && exists i :: 0 <= i < |updates| && updates[i].version == ack.version && ListHeld(updates, i)
  {
    hide After, Run, Sanitized, Held, GateRight, ListHeld, AllAccepted;
    RefreshInv(events);
    RunGrows(events, k);
    assert ack in After(events).acks;
    UpdatesAccepted(events);
    var updates := After(events).updates;
    HeldIsLast(updates);
    var i :| 0 <= i < |updates| && updates[i].version == ack.version;
    AcceptedList(updates, i);
  }

  lemma AcceptedPart(updates: seq<Update>, n: nat)
    requires AllAccepted(updates) && n <= |updates|
    ensures AllAccepted(updates[..n])
  {
    hide Held, Acceptable;
    forall i | 0 <= i < n ensures updates[..n][..i] == updates[..i] {
    }
  }

  /** Nobody fetches while another refresh is under way. */
  lemma OneFetch(events: seq<Event>, v: nat, w: nat)
    requires Run(events) && v in After(events).refreshers && w in After(events).refreshers
    requires Inside(After(events).refreshers[v]) && Inside(After(events).refreshers[w])
    ensures v == w
  {
    RefreshInv(events);
  }

  // -------------------------------------------------------------------- runs

  /** The batch is what was due of the configuration it was cut from. */
  predicate CutRight(updates: seq<Update>, batch: Cut) {
    && batch.cut <= |updates|
    && var c := Held(updates[..batch.cut]);
       batch.version == c.version && batch.generation == c.generation
       && batch.targets == Limited(DueTargets(batch.due, c.targets, batch.at))
  }

  predicate RecordRight(records: seq<Record>, batch: Cut, record: nat) {
    record < |records| && records[record].batch == batch
  }

  /** The configuration of the batch still held after the first `at` updates. */
  predicate CheckedRight(updates: seq<Update>, batch: Cut, at: nat) {
    CutRight(updates, batch) && batch.cut <= at <= |updates| && IsCurrent(Held(updates[..at]), batch)
  }

  predicate RunnerRight(updates: seq<Update>, records: seq<Record>, r: Runner) {
    && CutRight(updates, r.batch)
    && (r.Checked? ==> CheckedRight(updates, r.batch, r.at))
    && (r.Stored? ==> RecordRight(records, r.batch, r.record))
  }

  predicate CompletionRight(updates: seq<Update>, records: seq<Record>, done: Completion) {
    && CutRight(updates, done.batch)
    && RecordRight(records, done.batch, done.record)
    && done.batch.cut <= done.after <= |updates|
    && IsCurrent(Held(updates[..done.after]), done.batch)
  }

  ghost predicate RunsRight(s: State) {
    && (forall w :: w in s.runners ==> RunnerRight(s.updates, s.records, s.runners[w]))
    && (forall k :: 0 <= k < |s.completions| ==> CompletionRight(s.updates, s.records, s.completions[k]))
    && (forall k :: 0 <= k < |s.records| ==> CheckedRight(s.updates, s.records[k].batch, s.records[k].checked))
  }

  lemma LaterCut(updates: seq<Update>, more: seq<Update>, k: nat)
    requires updates <= more && k <= |updates|
    ensures more[..k] == updates[..k]
  {
  }

  lemma LaterRunner(s: State, t: State, r: Runner)
    requires s.updates <= t.updates && s.records <= t.records && RunnerRight(s.updates, s.records, r)
    ensures RunnerRight(t.updates, t.records, r)
  {
    hide Held, Limited, DueTargets, IsCurrent;
    LaterCut(s.updates, t.updates, r.batch.cut);
    if r.Checked? { LaterChecked(s, t, r.batch, r.at); }
  }

  lemma LaterChecked(s: State, t: State, batch: Cut, at: nat)
    requires s.updates <= t.updates && CheckedRight(s.updates, batch, at)
    ensures CheckedRight(t.updates, batch, at)
  {
    hide Held, Limited, DueTargets, IsCurrent;
    LaterCut(s.updates, t.updates, batch.cut);
    LaterCut(s.updates, t.updates, at);
  }

  lemma LaterCompletion(s: State, t: State, done: Completion)
    requires s.updates <= t.updates && s.records <= t.records && CompletionRight(s.updates, s.records, done)
    ensures CompletionRight(t.updates, t.records, done)
  {
    hide Held, Limited, DueTargets;
    LaterCut(s.updates, t.updates, done.batch.cut);
    LaterCut(s.updates, t.updates, done.after);
  }

  /** Whatever a step does, the runners and completions that stay are right. */
  lemma StayRight(s: State, t: State)
    requires RunsRight(s) && s.updates <= t.updates && s.records <= t.records
    ensures forall w :: w in s.runners ==> RunnerRight(t.updates, t.records, s.runners[w])
    ensures forall k :: 0 <= k < |s.completions| ==> CompletionRight(t.updates, t.records, s.completions[k])
    ensures forall k :: 0 <= k < |s.records| ==> CheckedRight(t.updates, s.records[k].batch, s.records[k].checked)
  {
    hide RunnerRight, CompletionRight, CheckedRight;
    forall w | w in s.runners ensures RunnerRight(t.updates, t.records, s.runners[w]) {
      LaterRunner(s, t, s.runners[w]);
    }
    forall k | 0 <= k < |s.completions| ensures CompletionRight(t.updates, t.records, s.completions[k]) {
      LaterCompletion(s, t, s.completions[k]);
    }
    forall k | 0 <= k < |s.records| ensures CheckedRight(t.updates, s.records[k].batch, s.records[k].checked) {
      LaterChecked(s, t, s.records[k].batch, s.records[k].checked);
    }
  }

  lemma BeginRight(s: State, e: Event)
    requires e.BeginRun?
    ensures var t := Next(s, e);
            && t.updates == s.updates && t.records == s.records && t.completions == s.completions
            && (forall w :: w in t.runners ==>
                  (w in s.runners && t.runners[w] == s.runners[w]) || RunnerRight(s.updates, s.records, t.runners[w]))
  {
    hide Held, Limited, DueTargets;
    assert s.updates[..|s.updates|] == s.updates;
  }

  /** What the other steps of a run make of the runners and the completions. */
  lemma RunStepRight(s: State, e: Event)
    requires RunsRight(s) && Enabled(s, e) && !IsRefresh(e) && !e.BeginRun?
    ensures var t := Next(s, e);
            && (forall w :: w in t.runners ==>
                  (w in s.runners && t.runners[w] == s.runners[w]) || RunnerRight(t.updates, t.records, t.runners[w]))
            && (t.completions == s.completions
                || (|t.completions| == |s.completions| + 1 && s.completions <= t.completions
                    && CompletionRight(t.updates, t.records, t.completions[|s.completions|])))
            && (t.records == s.records
                || (|t.records| == |s.records| + 1 && s.records <= t.records
                    && CheckedRight(t.updates, t.records[|s.records|].batch, t.records[|s.records|].checked)))
  {
    hide Held, Limited, DueTargets, Marked, CutRight, IsCurrent;
    assert s.updates[..|s.updates|] == s.updates;
    assert RunnerRight(s.updates, s.records, s.runners[e.worker]);
    CutWithin(s.updates, s.runners[e.worker].batch);
  }

  lemma StepRunsRight(s: State, e: Event)
    requires RunsRight(s) && Enabled(s, e)
    ensures RunsRight(Next(s, e))
  {
    hide *;
    var t := Next(s, e);
    StepGrows(s, e);
    StayRight(s, t);
    if IsRefresh(e) {
      RefreshLeavesRuns(s, e);
    } else if e.BeginRun? {
      BeginRight(s, e);
    } else {
      RunStepRight(s, e);
    }
    Assemble(t);
  }

  lemma CutWithin(updates: seq<Update>, batch: Cut)
    requires CutRight(updates, batch)
    ensures batch.cut <= |updates|
  {
  }

  lemma Assemble(t: State)
    requires forall k :: 0 <= k < |t.records| ==> CheckedRight(t.updates, t.records[k].batch, t.records[k].checked)
    requires forall w :: w in t.runners ==> RunnerRight(t.updates, t.records, t.runners[w])
    requires forall k :: 0 <= k < |t.completions| ==> CompletionRight(t.updates, t.records, t.completions[k])
    ensures RunsRight(t)
  {
  }

  lemma {:induction false} RunsInv(events: seq<Event>)
    requires Run(events)
    ensures RunsRight(After(events))
  {
    if events != [] {
      hide RunsRight, Next, Enabled;
      RunsInv(events[..|events| - 1]);
      StepRunsRight(After(events[..|events| - 1]), events[|events| - 1]);
    }
  }

  /** Whatever the workers do in whatever order: what is stored are the due
      limited targets of a configuration the manager had accepted, under its
      version, and that configuration still held when it was last checked. */
  lemma StoredWasCurrent(events: seq<Event>, k: nat)
    requires Run(events) && k < |After(events).records| && |After(events).updates| < GENERATIONS
    ensures var s := After(events);
            var batch, checked := s.records[k].batch, s.records[k].checked;
            && batch.cut <= checked <= |s.updates|
            && var from, held := Held(s.updates[..batch.cut]), Held(s.updates[..checked]);
               && batch.targets == Limited(DueTargets(batch.due, from.targets, batch.at))
               && batch.version == from.version == held.version
               && from.targets == held.targets
  {
    hide After, Run, Limited, DueTargets, AfterAll, ChangeCount;
    RunsInv(events);
    var s := After(events);
    assert CheckedRight(s.updates, s.records[k].batch, s.records[k].checked);
    StillSame(s.updates, s.records[k].batch, s.records[k].checked);
  }

  lemma StillSame(updates: seq<Update>, batch: Cut, at: nat)
    requires CheckedRight(updates, batch, at) && |updates| < GENERATIONS
    ensures Held(updates[..batch.cut]).version == Held(updates[..at]).version
    ensures Held(updates[..batch.cut]).targets == Held(updates[..at]).targets
  {
    hide Limited, DueTargets, AfterAll, ChangeCount;
    var part := updates[..at];
    assert part[..batch.cut] == updates[..batch.cut];
    HistoryParts(NoConfig, part, batch.cut);
    ConfigHistory(NoConfig, updates[..batch.cut]);
    SameGenerationSameConfig(Held(updates[..batch.cut]), part[batch.cut..]);
  }

  /** Nothing changed the configuration from the `from`-th update on. */
  ghost predicate NoChangeSince(updates: seq<Update>, from: nat) {
    from <= |updates| && forall i :: from <= i < |updates| ==> !Changes(Held(updates[..i]), updates[i])
  }

  /** The target was completed in this run, and nothing has changed since. */
  ghost predicate CompletedIn(updates: seq<Update>, done: Completion, id: string) {
    (exists t :: t in done.batch.targets && t.id == id) && NoChangeSince(updates, done.after)
  }

  /** Who counts as completed was completed in a run, and nothing has changed
      since. */
  ghost predicate DoneRight(s: State) {
    forall id :: id in s.done ==> exists k :: 0 <= k < |s.completions| && CompletedIn(s.updates, s.completions[k], id)
  }

  lemma NoChangeLater(updates: seq<Update>, u: Update, from: nat)
    requires NoChangeSince(updates, from) && !Changes(Held(updates), u)
    ensures NoChangeSince(updates + [u], from)
  {
    hide Held, Changes;
    assert (updates + [u])[..|updates|] == updates;
    forall i | 0 <= i < |updates| ensures (updates + [u])[..i] == updates[..i] {
    }
  }

  /** What the steps make of the completion times. */
  lemma DoneAfter(s: State, e: Event)
    requires Enabled(s, e)
    ensures var t := Next(s, e);
            || (t.done == s.done && t.updates == s.updates && t.completions == s.completions)
            || (t.done == map[])
            || (&& t.done == s.done && t.completions == s.completions
                && exists u :: t.updates == s.updates + [u] && !Changes(Held(s.updates), u))
            || (&& t.updates == s.updates
                && exists r: Completion, now: int :: r.after == |s.updates| && t.completions == s.completions + [r]
                     && t.done == Marked(s.done, r.batch.targets, now))
  {
    hide Held, Limited, DueTargets, Marked, IsCurrent, Acceptable, Changes, UpToDate;
    if e.MarkBatch? {
      var r := Completion(s.runners[e.worker].batch, if s.runners[e.worker].Stored? then s.runners[e.worker].record else 0, |s.updates|);
      var t := Next(s, e);
      assert t.updates == s.updates && r.after == |s.updates|;
      assert (t.completions == s.completions && t.done == s.done)
             || (t.completions == s.completions + [r] && t.done == Marked(s.done, r.batch.targets, e.now));
    }
  }

  lemma StepDoneRight(s: State, e: Event)
    requires DoneRight(s) && Enabled(s, e)
    ensures DoneRight(Next(s, e))
  {
    hide Next, Enabled, Held, Changes, CompletedIn;
    var t := Next(s, e);
    DoneAfter(s, e);
    forall id | id in t.done ensures exists k :: 0 <= k < |t.completions| && CompletedIn(t.updates, t.completions[k], id) {
      if t.updates != s.updates {
        var u :| t.updates == s.updates + [u] && !Changes(Held(s.updates), u);
        var k :| 0 <= k < |s.completions| && CompletedIn(s.updates, s.completions[k], id);
        CompletedLater(s.updates, u, s.completions[k], id);
      } else if t.completions != s.completions {
        var r: Completion, now: int :|
          && r.after == |s.updates| && t.completions == s.completions + [r]
          && t.done == Marked(s.done, r.batch.targets, now);
        if id in s.done {
          var k :| 0 <= k < |s.completions| && CompletedIn(s.updates, s.completions[k], id);
          assert t.completions[k] == s.completions[k];
        } else {
          CompletedNow(s.updates, r, id);
          assert t.completions[|s.completions|] == r;
        }
      }
    }
  }

  lemma CompletedLater(updates: seq<Update>, u: Update, done: Completion, id: string)
    requires CompletedIn(updates, done, id) && !Changes(Held(updates), u)
    ensures CompletedIn(updates + [u], done, id)
  {
    hide Held, Changes, NoChangeSince;
    NoChangeLater(updates, u, done.after);
  }

  lemma CompletedNow(updates: seq<Update>, done: Completion, id: string)
    requires done.after == |updates| && exists t :: t in done.batch.targets && t.id == id
    ensures CompletedIn(updates, done, id)
  {
  }

  lemma {:induction false} DoneInv(events: seq<Event>)
    requires Run(events)
    ensures DoneRight(After(events))
  {
    if events != [] {
      hide DoneRight, Next, Enabled;
      DoneInv(events[..|events| - 1]);
      StepDoneRight(After(events[..|events| - 1]), events[|events| - 1]);
    }
  }

  lemma {:induction false} UnchangedHeld(updates: seq<Update>, from: nat)
    requires NoChangeSince(updates, from)
    ensures Held(updates).targets == Held(updates[..from]).targets && Held(updates).version == Held(updates[..from]).version
  {
    hide Acceptable, Sanitized;
    if from == |updates| {
      assert updates[..from] == updates;
    } else {
      var shorter := updates[..|updates| - 1];
      assert shorter[..from] == updates[..from];
      forall i | from <= i < |shorter| ensures shorter[..i] == updates[..i] {
      }
      UnchangedHeld(shorter, from);
    }
  }

  /** So a target is never kept from being probed by a run under another
      configuration: if it counts as completed, a run that was marked while the
      present targets and version were held has completed it. */
  lemma DoneUnderPresentConfig(events: seq<Event>, id: string)
    requires Run(events) && id in After(events).done
    ensures var s := After(events);
            exists k :: 0 <= k < |s.completions| && s.completions[k].after <= |s.updates|
              && (exists t :: t in s.completions[k].batch.targets && t.id == id)
              && Held(s.updates[..s.completions[k].after]).targets == Held(s.updates).targets
              && Held(s.updates[..s.completions[k].after]).version == Held(s.updates).version
  {
    hide Run, After, Held, NoChangeSince;
    DoneInv(events);
    var s := After(events);
    var k :| 0 <= k < |s.completions| && CompletedIn(s.updates, s.completions[k], id);
    UnchangedHeld(s.updates, s.completions[k].after);
    NoChangeWithin(s.updates, s.completions[k].after);
  }

  lemma NoChangeWithin(updates: seq<Update>, from: nat)
    requires NoChangeSince(updates, from)
    ensures from <= |updates|
  {
  }

  /** At most one run is under way. */
  ghost predicate RunGateRight(s: State) {
    && (s.runGate ==> s.runners == map[])
    && (forall v, w :: v in s.runners && w in s.runners ==> v == w)
  }

  lemma StepRunGate(s: State, e: Event)
    requires RunGateRight(s) && Enabled(s, e)
    ensures RunGateRight(Next(s, e))
  {
    hide Held, Limited, DueTargets, Marked, IsCurrent, Acceptable, Changes, UpToDate;
    if IsRefresh(e) {
      RefreshLeavesRuns(s, e);
      RefreshLeavesGate(s, e);
    }
  }

  lemma RefreshLeavesGate(s: State, e: Event)
    requires IsRefresh(e)
    ensures Next(s, e).runGate == s.runGate
  {
    hide Held, Acceptable, Changes, UpToDate;
  }

  lemma {:induction false} OneRun(events: seq<Event>, v: nat, w: nat)
    requires Run(events)
    ensures RunGateRight(After(events))
    ensures v in After(events).runners && w in After(events).runners ==> v == w
  {
    if events != [] {
      hide RunGateRight, Next, Enabled;
      OneRun(events[..|events| - 1], v, w);
      StepRunGate(After(events[..|events| - 1]), events[|events| - 1]);
    }
    RunGateAdmits(After(events), v, w);
  }

  lemma RunGateAdmits(s: State, v: nat, w: nat)
    ensures RunGateRight(s) && v in s.runners && w in s.runners ==> v == w
  {
  }

  /** Whatever the workers do in whatever order: the targets marked completed
      are those of a batch that was stored before, in the same order and under
      the version of a configuration the manager had accepted; and that
      configuration still held when they were marked, unless 2^64 updates came
      between. */
  lemma StoredBeforeCompleted(events: seq<Event>, k: nat)
    requires Run(events) && k < |After(events).completions| && |After(events).updates| < GENERATIONS
    ensures var s := After(events);
            var done := s.completions[k];
            var batch := done.batch;
            && done.record < |s.records| && s.records[done.record].batch == batch
            && batch.cut <= done.after <= |s.updates|
            && var from, held := Held(s.updates[..batch.cut]), Held(s.updates[..done.after]);
               && batch.targets == Limited(DueTargets(batch.due, from.targets, batch.at))
               && batch.version == from.version == held.version
               && from.targets == held.targets
  {
    hide After, Run, Limited, DueTargets, AfterAll, ChangeCount;
    RunsInv(events);
    var s := After(events);
    var done := s.completions[k];
    assert CompletionRight(s.updates, s.records, done);
    StillSame(s.updates, done.batch, done.after);
  }

  // ------------------------------------------------------------- undisturbed

  lemma OneMoreEvent(events: seq<Event>, e: Event)
    requires Run(events) && Enabled(After(events), e)
    ensures Run(events + [e]) && After(events + [e]) == Next(After(events), e)
  {
    hide Enabled, Next;
    assert (events + [e])[..|events|] == events;
  }

  /** Four events that can follow. */
  lemma FourMoreEvents(events: seq<Event>, a: Event, b: Event, c: Event, d: Event)
    requires Run(events)
    requires var s := After(events);
             && Enabled(s, a) && Enabled(Next(s, a), b)
             && Enabled(Next(Next(s, a), b), c) && Enabled(Next(Next(Next(s, a), b), c), d)
    ensures Run(events + [a, b, c, d])
    ensures After(events + [a, b, c, d]) == Next(Next(Next(Next(After(events), a), b), c), d)
  {
    hide *;
    OneMoreEvent(events, a);
    OneMoreEvent(events + [a], b);
    OneMoreEvent(events + [a] + [b], c);
    OneMoreEvent(events + [a] + [b] + [c], d);
    assert events + [a] + [b] + [c] + [d] == events + [a, b, c, d];
  }

  lemma QueueSteps(s: State, w: nat, requested: int)
    requires w !in s.refreshers && 0 <= requested && !UpToDate(Held(s.updates), requested)
    ensures Enabled(s, Ask(w, requested, true)) && Enabled(Next(s, Ask(w, requested, true)), CheckVersion(w))
    ensures Next(Next(s, Ask(w, requested, true)), CheckVersion(w)) == s.(refreshers := s.refreshers[w := Queued(requested, true)])
  {
    hide Held, UpToDate;
    assert Next(s, Ask(w, requested, true)) == s.(refreshers := s.refreshers[w := Asked(requested, true)]);
  }

  lemma GateSteps(s: State, w: nat, requested: int)
    requires s.refreshGate && w in s.refreshers && s.refreshers[w] == Queued(requested, true)
    requires !UpToDate(Held(s.updates), requested)
    ensures Enabled(s, TakeGate(w)) && Enabled(Next(s, TakeGate(w)), CheckAgain(w))
    ensures Next(Next(s, TakeGate(w)), CheckAgain(w))
            == s.(refreshGate := false, refreshers := s.refreshers[w := Fetching(requested, true)])
  {
    hide Held, UpToDate;
    assert Next(s, TakeGate(w)) == s.(refreshGate := false, refreshers := s.refreshers[w := Holding(requested, true)]);
  }

  lemma AskSteps(s: State, w: nat, requested: int)
    requires s.refreshGate && w !in s.refreshers && 0 <= requested && !UpToDate(Held(s.updates), requested)
    ensures var a, b, c, d := Ask(w, requested, true), CheckVersion(w), TakeGate(w), CheckAgain(w);
            && Enabled(s, a) && Enabled(Next(s, a), b)
            && Enabled(Next(Next(s, a), b), c) && Enabled(Next(Next(Next(s, a), b), c), d)
            && Next(Next(Next(Next(s, a), b), c), d)
               == s.(refreshGate := false, refreshers := s.refreshers[w := Fetching(requested, true)])
  {
    hide Held, UpToDate, Next, Enabled;
    QueueSteps(s, w, requested);
    var s2 := Next(Next(s, Ask(w, requested, true)), CheckVersion(w));
    GateSteps(s2, w, requested);
    assert s.refreshers[w := Queued(requested, true)][w := Fetching(requested, true)] == s.refreshers[w := Fetching(requested, true)];
  }

  lemma FetchSteps(s: State, w: nat, requested: int, update: Update)
    requires !s.refreshGate && w in s.refreshers && s.refreshers[w] == Fetching(requested, true)
    requires 0 <= requested <= update.version && Acceptable(Held(s.updates), update)
    ensures var a, b, c, d := Receive(w, update), ApplyUpdate(w), Leave(w), Answer(w);
            && Enabled(s, a) && Enabled(Next(s, a), b)
            && Enabled(Next(Next(s, a), b), c) && Enabled(Next(Next(Next(s, a), b), c), d)
            && var t := Next(Next(Next(Next(s, a), b), c), d);
               && t.updates == s.updates + [update] && t.acks == s.acks + [Ack(requested, update.version)]
               && t.refreshGate && t.refreshers == s.refreshers - {w}
  {
    hide Held, Acceptable, Changes, Next, Enabled;
    GotSteps(s, w, requested, update);
    var s2 := Next(Next(s, Receive(w, update)), ApplyUpdate(w));
    AnswerSteps(s2, w, requested, update.version);
    assert s.refreshers[w := Leaving(requested, true, Some(update.version))] - {w} == s.refreshers - {w};
  }

  lemma GotSteps(s: State, w: nat, requested: int, update: Update)
    requires w in s.refreshers && s.refreshers[w] == Fetching(requested, true)
    requires 0 <= requested <= update.version && Acceptable(Held(s.updates), update)
    ensures Enabled(s, Receive(w, update)) && Enabled(Next(s, Receive(w, update)), ApplyUpdate(w))
    ensures var t := Next(Next(s, Receive(w, update)), ApplyUpdate(w));
            && t.updates == s.updates + [update] && t.acks == s.acks
            && t.refreshers == s.refreshers[w := Leaving(requested, true, Some(update.version))]
  {
    hide Held, Acceptable, Changes;
    assert Next(s, Receive(w, update)) == s.(refreshers := s.refreshers[w := Fetched(requested, true, update)]);
  }

  lemma AnswerSteps(s: State, w: nat, requested: int, version: int)
    requires w in s.refreshers && s.refreshers[w] == Leaving(requested, true, Some(version)) && version >= requested
    ensures Enabled(s, Leave(w)) && Enabled(Next(s, Leave(w)), Answer(w))
    ensures var t := Next(Next(s, Leave(w)), Answer(w));
            && t.updates == s.updates && t.acks == s.acks + [Ack(requested, version)]
            && t.refreshGate && t.refreshers == s.refreshers - {w}
  {
    hide Held;
    assert Next(s, Leave(w)) == s.(refreshGate := true, refreshers := s.refreshers[w := Returned(requested, true, version)]);
  }

  /** The steps of a refresh nobody gets in the way of. */
  function Asking(w: nat, requested: int): seq<Event> {
    [Ask(w, requested, true), CheckVersion(w), TakeGate(w), CheckAgain(w)]
  }

  function Getting(w: nat, update: Update): seq<Event> {
    [Receive(w, update), ApplyUpdate(w), Leave(w), Answer(w)]
  }

  /** At any moment with the gate free, a version that is at least the one asked
      for and that the manager may accept is applied and acknowledged, and its
      list is held. */
  lemma RefreshGoesThrough(events: seq<Event>, w: nat, requested: int, update: Update)
    requires Run(events) && After(events).refreshGate && w !in After(events).refreshers
    requires 0 <= requested <= update.version && Acceptable(Held(After(events).updates), update)
    requires !UpToDate(Held(After(events).updates), requested)
    ensures var all := events + Asking(w, requested) + Getting(w, update);
            && Run(all)
            && After(all).acks == After(events).acks + [Ack(requested, update.version)]
            && Held(After(all).updates).targets == Sanitized(update.targets)
            && Held(After(all).updates).version == update.version
            && After(all).refreshGate && After(all).refreshers == After(events).refreshers
  {
    var s := After(events);
    hide Sanitized, Acceptable, Held, UpToDate, Run, After, Next, Enabled;
    AskSteps(s, w, requested);
    FourMoreEvents(events, Ask(w, requested, true), CheckVersion(w), TakeGate(w), CheckAgain(w));
    var half := events + Asking(w, requested);
    assert After(half).refreshers == s.refreshers[w := Fetching(requested, true)] && After(half).updates == s.updates;
    FetchSteps(After(half), w, requested, update);
    FourMoreEvents(half, Receive(w, update), ApplyUpdate(w), Leave(w), Answer(w));
    assert s.refreshers[w := Fetching(requested, true)] - {w} == s.refreshers;
    HeldAfterOne(s.updates, update);
  }

  lemma HeldAfterOne(updates: seq<Update>, u: Update)
    requires Acceptable(Held(updates), u)
    ensures Held(updates + [u]).targets == Sanitized(u.targets) && Held(updates + [u]).version == u.version
  {
    hide Sanitized, Acceptable;
    assert (updates + [u])[..|updates|] == updates;
    AfterTakes(Held(updates), u);
  }

  /** The batch that would be cut now. */
  function CutNow(s: State, now: int): Cut {
    var held := Held(s.updates);
    Cut(Limited(DueTargets(s.done, held.targets, now)), held.version, held.generation, |s.updates|, s.done, now)
  }

  lemma ProbingSteps(s: State, w: nat, now: int, later: int)
    requires s.runGate && w !in s.runners && Limited(DueTargets(s.done, Held(s.updates).targets, now)) != []
    ensures var a, b, c, d := BeginRun(w, now), CheckBatch(w), StoreBatch(w), MarkBatch(w, later);
            && Enabled(s, a) && Enabled(Next(s, a), b)
            && Enabled(Next(Next(s, a), b), c) && Enabled(Next(Next(Next(s, a), b), c), d)
            && var t := Next(Next(Next(Next(s, a), b), c), d);
               var held := Held(s.updates);
               var targets := Limited(DueTargets(s.done, held.targets, now));
               && CutNow(s, now).targets == targets && CutNow(s, now).version == held.version
               && t.records == s.records + [Record(CutNow(s, now), |s.updates|)] && t.done == Marked(s.done, targets, later)
               && t.runGate && t.runners == s.runners && t.updates == s.updates
  {
    hide Held, Limited, DueTargets, Marked, Next, Enabled;
    var held := Held(s.updates);
    var batch := CutNow(s, now);
    BeginStep(s, w, now, batch);
    var s1 := Next(s, BeginRun(w, now));
    StoreSteps(s1, w, batch);
    var s3 := Next(Next(s1, CheckBatch(w)), StoreBatch(w));
    MarkStep(s3, w, batch, later);
    assert s.runners[w := Stored(batch, |s.records|)] - {w} == s.runners;
  }

  lemma BeginStep(s: State, w: nat, now: int, batch: Cut)
    requires s.runGate && w !in s.runners && batch.targets != []
    requires batch.targets == Limited(DueTargets(s.done, Held(s.updates).targets, now))
    requires batch == Cut(batch.targets, Held(s.updates).version, Held(s.updates).generation, |s.updates|, s.done, now)
    ensures Enabled(s, BeginRun(w, now))
    ensures Next(s, BeginRun(w, now)) == s.(runGate := false, runners := s.runners[w := Probing(batch)])
  {
    hide Held, Limited, DueTargets;
    NothingLimited(s.done, now);
  }

  lemma StoreSteps(s: State, w: nat, batch: Cut)
    requires w in s.runners && s.runners[w] == Probing(batch) && IsCurrent(Held(s.updates), batch)
    ensures Enabled(s, CheckBatch(w)) && Enabled(Next(s, CheckBatch(w)), StoreBatch(w))
    ensures Next(Next(s, CheckBatch(w)), StoreBatch(w))
            == s.(runners := s.runners[w := Stored(batch, |s.records|)],
                  records := s.records + [Record(batch, |s.updates|)])
  {
    hide Held;
    assert Next(s, CheckBatch(w)) == s.(runners := s.runners[w := Checked(batch, |s.updates|)]);
  }

  lemma MarkStep(s: State, w: nat, batch: Cut, later: int)
    requires w in s.runners && s.runners[w].Stored? && s.runners[w].batch == batch && IsCurrent(Held(s.updates), batch)
    ensures Enabled(s, MarkBatch(w, later))
    ensures var t := Next(s, MarkBatch(w, later));
            && t.records == s.records && t.done == Marked(s.done, batch.targets, later)
            && t.runGate && t.runners == s.runners - {w} && t.updates == s.updates
  {
    hide Held, Marked;
  }

  lemma NothingLimited(done: map<string, int>, now: int)
    ensures Limited(DueTargets(done, [], now)) == []
  {
    LimitBudgets([]);
  }

  /** At any moment with the gate free and something due, a run that nobody gets
      in the way of stores the due limited targets under the version that is
      held, and then marks them. */
  lemma RunGoesThrough(events: seq<Event>, w: nat, now: int, later: int)
    requires Run(events) && After(events).runGate && w !in After(events).runners
    requires Limited(DueTargets(After(events).done, Held(After(events).updates).targets, now)) != []
    ensures var s, all := After(events), events + [BeginRun(w, now), CheckBatch(w), StoreBatch(w), MarkBatch(w, later)];
            var targets := Limited(DueTargets(s.done, Held(s.updates).targets, now));
            && Run(all)
            && After(all).records == s.records + [Record(CutNow(s, now), |s.updates|)]
            && CutNow(s, now).targets == targets && CutNow(s, now).version == Held(s.updates).version
            && After(all).done == Marked(s.done, targets, later)
            && After(all).runGate && After(all).runners == s.runners && After(all).updates == s.updates
  {
    hide *;
    ProbingSteps(After(events), w, now, later);
    FourMoreEvents(events, BeginRun(w, now), CheckBatch(w), StoreBatch(w), MarkBatch(w, later));
  }
}
