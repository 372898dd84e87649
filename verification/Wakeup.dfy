/** The sleeping uploader and those who store items: no item that was stored
    without an error waits unnoticed (internal/agent/probe_uploader.go,
    internal/agent/probe_spool.go).

    Any number of callers store items at any time. The spool's mutex lets one
    of them, or the uploader, into the spool; the notify channel holds at most
    one token. Items are numbered in the order of their renames. */
module Wakeup {

  /** Who is inside the spool, and how far. */
  datatype Holder = Nobody | Storing | Renamed(item: nat) | Synced(item: nat) | Signalled(item: nat) | Looking | Gating

  datatype Runner = Ready | Scanning | Working | Waiting | Stopped

  /** `stored` counts the items that were renamed into the directory. `seen` of
      them were there at the uploader's last look; `reported` are those whose
      Enqueue has returned without an error, `unsure` those whose Enqueue
      returned an error although the item is there. */
  datatype State = State(
    holder: Holder, token: bool, runner: Runner, stored: nat, seen: nat, reported: set<nat>, unsure: set<nat>)

  const Start := State(Nobody, false, Ready, 0, 0, {}, {})

  datatype Event =
    | Lock          // a caller of Enqueue gets the mutex
    | Refuse        // Enqueue fails before the rename
    | Rename
    | SyncDone
    | SyncFailed    // Enqueue fails after the rename
    | Signal
    | Unlock
    | Look          // the uploader gets the mutex and lists the directory
    | FoundNothing
    | FoundWork
    | Settled       // acknowledged or quarantined: nothing to signal
    | LockToGate    // the uploader stores a retry
    | GateSignal
    | Fail          // a local failure ends Run
    | Restart
    | TakeToken
    | TimeOut

  predicate Enabled(s: State, e: Event) {
    match e
    case Lock => s.holder.Nobody?
    case Refuse => s.holder.Storing?
    case Rename => s.holder.Storing?
    case SyncDone => s.holder.Renamed?
    case SyncFailed => s.holder.Renamed?
    case Signal => s.holder.Synced?
    case Unlock => s.holder.Signalled?
    case Look => s.runner.Ready? && s.holder.Nobody?
    case FoundNothing => s.runner.Scanning?
    case FoundWork => s.runner.Scanning?
    case Settled => s.runner.Working? && s.holder.Nobody?
    case LockToGate => s.runner.Working? && s.holder.Nobody?
    case GateSignal => s.runner.Working? && s.holder.Gating?
    case Fail => s.runner.Scanning? || s.runner.Working?
    case Restart => s.runner.Stopped?
    case TakeToken => s.runner.Waiting? && s.token
    case TimeOut => s.runner.Waiting?
  }

  function Next(s: State, e: Event): State {
    match e
    case Lock => s.(holder := Storing)
    case Refuse => s.(holder := Nobody)
    case Rename => s.(holder := Renamed(s.stored), stored := s.stored + 1)
    case SyncDone => if s.holder.Renamed? then s.(holder := Synced(s.holder.item)) else s
    case SyncFailed => if s.holder.Renamed? then s.(holder := Nobody, unsure := s.unsure + {s.holder.item}) else s
    case Signal => if s.holder.Synced? then s.(holder := Signalled(s.holder.item), token := true) else s
    case Unlock => if s.holder.Signalled? then s.(holder := Nobody, reported := s.reported + {s.holder.item}) else s
    case Look => s.(holder := Looking, runner := Scanning, seen := s.stored)
    case FoundNothing => s.(holder := Nobody, runner := Waiting)
    case FoundWork => s.(holder := Nobody, runner := Working)
    case Settled => s.(runner := Ready)
    case LockToGate => s.(holder := Gating)
    case GateSignal => s.(holder := Nobody, runner := Ready, token := true)
    case Fail => s.(holder := if s.holder.Looking? || s.holder.Gating? then Nobody else s.holder, runner := Stopped)
    case Restart => s.(runner := Ready)
    case TakeToken => s.(runner := Ready, token := false)
    case TimeOut => s.(runner := Ready)
  }

  function After(events: seq<Event>): State {
    if events == [] then Start else Next(After(events[..|events| - 1]), events[|events| - 1])
  }

  predicate Run(events: seq<Event>) {
    events == []
    || (Run(events[..|events| - 1]) && Enabled(After(events[..|events| - 1]), events[|events| - 1]))
  }

  // --------------------------------------------------------------- invariant

  /** The item the caller inside the spool has renamed and not yet reported. */
  predicate UnderWay(s: State, item: nat) {
    (s.holder.Renamed? || s.holder.Synced? || s.holder.Signalled?) && s.holder.item == item
  }

  /** An item that is there without the uploader having looked since is under
      way, failed, or announced by the token, at least while the uploader would
      otherwise sleep on. */
  predicate Noticed(s: State, item: nat) {
    item < s.seen || item in s.unsure || UnderWay(s, item) || s.token || !s.runner.Waiting?
  }

  ghost predicate Inv(s: State) {
    && (s.holder.Looking? <==> s.runner.Scanning?)
    && (s.holder.Gating? ==> s.runner.Working?)
    && s.seen <= s.stored
    && (s.holder.Signalled? && s.runner.Waiting? ==> s.token || s.holder.item < s.seen)
    && (s.holder.Renamed? || s.holder.Synced? || s.holder.Signalled? ==>
          s.holder.item == s.stored - 1 && s.holder.item !in s.reported && s.holder.item !in s.unsure)
    && (s.runner.Scanning? ==> s.seen == s.stored)
    && (forall item :: item in s.reported || item in s.unsure ==> 0 <= item < s.stored)
    && (forall item :: 0 <= item < s.stored ==> Noticed(s, item))
    && (forall item :: 0 <= item < s.stored ==> item in s.reported || item in s.unsure || UnderWay(s, item))
    && s.reported !! s.unsure
  }

  lemma StepInv(s: State, e: Event)
    requires Inv(s) && Enabled(s, e)
    ensures Inv(Next(s, e))
  {
    var t := Next(s, e);
    forall item | 0 <= item < t.stored
      ensures Noticed(t, item) && (item in t.reported || item in t.unsure || UnderWay(t, item))
    {
      if item < s.stored {
        assert Noticed(s, item);
        assert item in s.reported || item in s.unsure || UnderWay(s, item);
      }
    }
  }

  lemma {:induction false} RunInv(events: seq<Event>)
    requires Run(events)
    ensures Inv(After(events))
  {
    hide Inv, Next, Enabled;
    if events == [] {
      StartInv();
    } else {
      RunInv(events[..|events| - 1]);
      StepInv(After(events[..|events| - 1]), events[|events| - 1]);
    }
  }

  lemma StartInv()
    ensures Inv(Start)
  {
  }

  // ---------------------------------------------------------------- theorems

  /** In every interleaving: while the uploader sleeps and there is an item
      whose Enqueue succeeded after its last look, the channel holds a token. */
  lemma NoLostWakeup(events: seq<Event>, item: nat)
    requires Run(events)
    requires After(events).runner.Waiting? && item in After(events).reported && item >= After(events).seen
    ensures After(events).token
  {
    RunInv(events);
    assert Noticed(After(events), item);
  }

  /** An item is overlooked while the uploader sleeps on with an empty channel
      and nobody is about to signal. */
  predicate Overlooked(s: State, item: nat) {
    s.runner.Waiting? && !s.token && s.holder.Nobody? && s.seen <= item < s.stored
  }

  /** Only an item whose directory sync failed after the rename can be. */
  lemma OverlookedFailed(events: seq<Event>, item: nat)
    requires Run(events) && Overlooked(After(events), item)
    ensures item in After(events).unsure && item !in After(events).reported
  {
    RunInv(events);
    assert Noticed(After(events), item);
  }

  /** And such a failure does overlook its item if the uploader is asleep then:
      whether the sync succeeds decides whether the item is noticed. */
  lemma SyncDecides(events: seq<Event>)
    requires Run(events) && After(events).runner.Waiting? && !After(events).token && After(events).holder.Renamed?
    ensures var item := After(events).holder.item;
            && After(events + [SyncDone, Signal]).token && Run(events + [SyncDone, Signal])
            && Run(events + [SyncFailed])
            && (Overlooked(After(events + [SyncFailed]), item) <==> item >= After(events).seen)
  {
    RunInv(events);
    assert UnderWay(After(events), After(events).holder.item);
    OneMore(events, SyncFailed);
    OneMore(events, SyncDone);
    OneMore(events + [SyncDone], Signal);
    assert events + [SyncDone, Signal] == events + [SyncDone] + [Signal];
  }

  lemma OneMore(events: seq<Event>, e: Event)
    requires Run(events) && Enabled(After(events), e)
    ensures Run(events + [e]) && After(events + [e]) == Next(After(events), e)
  {
    assert (events + [e])[..|events|] == events;
  }

  /** It does happen: the uploader looks, sleeps, and is not woken. */
  lemma WakeupCanBeLost()
    ensures var events := [Look, FoundNothing, Lock, Rename, SyncFailed];
            Run(events) && Overlooked(After(events), 0)
  {
    assert [] + [Look] == [Look];
    assert [Look] + [FoundNothing] == [Look, FoundNothing];
    assert [Look, FoundNothing] + [Lock] == [Look, FoundNothing, Lock];
    assert [Look, FoundNothing, Lock] + [Rename] == [Look, FoundNothing, Lock, Rename];
    assert [Look, FoundNothing, Lock, Rename] + [SyncFailed] == [Look, FoundNothing, Lock, Rename, SyncFailed];
    OneMore([], Look);
    OneMore([Look], FoundNothing);
    OneMore([Look, FoundNothing], Lock);
    OneMore([Look, FoundNothing, Lock], Rename);
    OneMore([Look, FoundNothing, Lock, Rename], SyncFailed);
  }
}
