/** What the books say after a crash that undid changes the directories were
    not synced for (internal/agent/probe_spool.go). */
module CrashRestart {
  import opened Text
  import opened Envelopes
  import opened SpoolModel
  import opened SpoolRuns
  import opened DurableWrite

  function ItemAt(pending: map<string, Entry>, name: string): Option<string> {
    if name in pending && pending[name].File? then Some(pending[name].content) else None
  }

  /** The item `name` is in `pending` as it was after `j` changes. */
  predicate ItemAsAt(u: Setup, origin: Store, run: seq<Event>, pending: map<string, Entry>, name: string, j: nat)
    requires j <= |run|
  {
    ItemAt(pending, name) == ItemAt(At(u, origin, run, j).pending, name)
  }

  /** A crash may leave these items if the pending directory was last synced
      after the first `k` changes: each for itself as it was since then. */
  ghost predicate PendingLeft(u: Setup, origin: Store, run: seq<Event>, k: nat, pending: map<string, Entry>) {
    forall name :: IsItemName(name) ==>
      && (name in pending ==> pending[name].File?)
      && exists j :: k <= j <= |run| && ItemAsAt(u, origin, run, pending, name, j)
  }

  predicate FileAsAt(u: Setup, origin: Store, run: seq<Event>, quarantine: map<string, Entry>, file: string, j: nat)
    requires j <= |run|
  {
    var q := At(u, origin, run, j).quarantine;
    (file in quarantine <==> file in q) && (file in q ==> quarantine[file] == q[file])
  }

  ghost predicate FileLeft(u: Setup, origin: Store, run: seq<Event>, k: nat, quarantine: map<string, Entry>, file: string) {
    exists j :: k <= j <= |run| && FileAsAt(u, origin, run, quarantine, file, j)
  }

  ghost predicate QuarantineLeft(u: Setup, origin: Store, run: seq<Event>, k: nat, quarantine: map<string, Entry>) {
    forall file: string :: FileLeft(u, origin, run, k, quarantine, file)
  }

  // ------------------------------------------------------ from the disk below

  /** The disk of system calls has seen these changes to the items, and was last
      synced after the first `k`. */
  ghost predicate Tracks(d: Disk, u: Setup, origin: Store, run: seq<Event>, k: nat) {
    && k <= |run|
    && Wanted(d) == Items(Replay(u, origin, run).pending)
    && forall i :: 0 <= i < |d.items| ==> Since(d.items[i], u, origin, run, k)
  }

  ghost predicate Since(items: map<string, string>, u: Setup, origin: Store, run: seq<Event>, k: nat) {
    exists j :: k <= j <= |run| && items == Items(At(u, origin, run, j).pending)
  }

  lemma SinceNow(u: Setup, origin: Store, run: seq<Event>, k: nat)
    requires k <= |run|
    ensures Since(Items(Replay(u, origin, run).pending), u, origin, run, k)
  {
    hide Replay, Items;
    assert run[..|run|] == run;
    assert Items(Replay(u, origin, run).pending) == Items(At(u, origin, run, |run|).pending);
  }

  lemma SinceLater(items: map<string, string>, u: Setup, origin: Store, run: seq<Event>, e: Event, k: nat)
    requires Since(items, u, origin, run, k)
    ensures Since(items, u, origin, run + [e], k)
  {
    hide Replay, Items;
    var j :| k <= j <= |run| && items == Items(At(u, origin, run, j).pending);
    assert (run + [e])[..j] == run[..j];
    assert items == Items(At(u, origin, run + [e], j).pending);
  }

  /** A restarted disk tracks the run that begins there. */
  lemma TracksStart(u: Setup, origin: Store)
    ensures Tracks(Booted(origin.pending), u, origin, [], 0)
  {
    hide Items;
    SinceNow(u, origin, [], 0);
  }

  lemma ItemsPut(pending: map<string, Entry>, name: string, content: string)
    ensures Items(pending[name := File(content)])
            == if IsItemName(name) then Items(pending)[name := content] else Items(pending) - {name}
  {
    hide IsItemName;
  }

  lemma ItemsDrop(pending: map<string, Entry>, name: string)
    ensures Items(pending - {name}) == Items(pending) - {name}
    ensures !IsItemName(name) ==> Items(pending) - {name} == Items(pending)
  {
    hide IsItemName;
  }

  /** What each change does to the items. */
  lemma ItemsAfter(u: Setup, s: Store, e: Event)
    requires Enabled(u, s, e)
    ensures Items(Apply(u, s, e).pending) ==
            match e
            case Persist(_, random, item) => Items(s.pending)[FileName(MakeId(item.created, random)) := Encode(u, item)]
            case Rewrite(_, name, attempt, nextAt) => Items(s.pending)[name := Rewritten(u, s.pending[name], attempt, nextAt)]
            case Remove(name, _) => Items(s.pending) - {name}
            case Move(name, _) => Items(s.pending) - {name}
            case _ => Items(s.pending)
  {
    hide Items, HasSuffix, Encode, MakeId, Rewritten, Fits, ReadEnvelope, PendingWeights, LastItem, FateAfter, PastTtl;
    match e
    case WriteTemp(name, content) =>
      TempIsNoItem(name);
      ItemsPut(s.pending, name, content);
      ItemsDrop(s.pending, name);
    case Persist(temp, random, item) =>
      TempIsNoItem(temp);
      ItemsDrop(s.pending, temp);
      ItemsPut(s.pending - {temp}, FileName(MakeId(item.created, random)), Encode(u, item));
    case Rewrite(temp, name, attempt, nextAt) =>
      TempIsNoItem(temp);
      ItemsDrop(s.pending, temp);
      ItemsPut(s.pending - {temp}, name, Rewritten(u, s.pending[name], attempt, nextAt));
    case Remove(name, _) => ItemsDrop(s.pending, name);
    case Move(name, _) => ItemsDrop(s.pending, name);
    case Evict(_) =>
  }

  /** The item content an ending write puts in place. */
  predicate WritesItem(u: Setup, s: Store, e: Event, path: string, content: string) {
    match e
    case Persist(_, random, item) => path == FileName(MakeId(item.created, random)) && content == Encode(u, item)
    case Rewrite(_, name, attempt, nextAt) =>
      && path == name && name in s.pending && ReadEnvelope(u, s.pending[name]).Some?
      && content == Rewritten(u, s.pending[name], attempt, nextAt)
    case _ => false
  }

  lemma TracksAdded(d: Disk, u: Setup, origin: Store, run: seq<Event>, k: nat, e: Event, names: map<string, Inode>,
                    wanted: map<string, string>)
    requires Tracks(d, u, origin, run, k) && wanted == Items(Replay(u, origin, run + [e]).pending)
    ensures Tracks(Change(d, names, wanted), u, origin, run + [e], k)
  {
    SinceNow(u, origin, run + [e], k);
    hide Replay, Items, Since;
    forall i | 0 <= i < |d.items| ensures Since(d.items[i], u, origin, run + [e], k) {
      SinceLater(d.items[i], u, origin, run, e, k);
    }
  }

  /** A rename is a storing or a rewriting, an unlink a removal or a move. */
  lemma TracksChange(d: Disk, s: Step, u: Setup, origin: Store, run: seq<Event>, k: nat, e: Event)
    requires Tracks(d, u, origin, run, k) && Enabled(u, Replay(u, origin, run), e)
    requires
      || (s.Rename? && WritesItem(u, Replay(u, origin, run), e, d.path, d.content))
      || (s.Unlink? && (e.Remove? || e.Move?) && e.name == s.name)
    ensures Tracks(Next(d, s), u, origin, run + [e], k)
  {
    hide Items, Encode, MakeId, Rewritten, ReadEnvelope, Enabled, Apply, Since, FileName, Change, Seen, Wanted;
    assert (run + [e])[..|run|] == run;
    ItemsAfter(u, Replay(u, origin, run), e);
    TracksWanted(d, u, origin, run, k);
    var wanted := if s.Rename? then Wanted(d)[d.path := d.content] else Wanted(d) - {e.name};
    var names := if s.Rename? then (Seen(d) - {d.temp})[d.path := d.inode] else Seen(d) - {e.name};
    hide Replay, Tracks;
    TracksAdded(d, u, origin, run, k, e, names, wanted);
    TracksStage(Change(d, names, wanted), u, origin, run + [e], k);
  }

  lemma TracksWanted(d: Disk, u: Setup, origin: Store, run: seq<Event>, k: nat)
    requires Tracks(d, u, origin, run, k)
    ensures Wanted(d) == Items(Replay(u, origin, run).pending)
  {
  }

  lemma TracksStage(d: Disk, u: Setup, origin: Store, run: seq<Event>, k: nat)
    requires Tracks(d, u, origin, run, k)
    ensures Tracks(d.(stage := Replaced), u, origin, run, k)
  {
    hide Replay, Items, Since;
  }

  /** Any other step of a write leaves the items alone, and so do changes to
      temporary files and to the quarantine. */
  lemma TracksSilent(d: Disk, s: Step, u: Setup, origin: Store, run: seq<Event>, k: nat)
    requires Tracks(d, u, origin, run, k) && !s.Rename? && !s.Unlink? && !s.SyncDirectory?
    ensures Tracks(Next(d, s), u, origin, run, k)
  {
    SinceNow(u, origin, run, k);
    hide Replay, Items, Since;
  }

  lemma TracksOther(d: Disk, u: Setup, origin: Store, run: seq<Event>, k: nat, e: Event)
    requires Tracks(d, u, origin, run, k) && Enabled(u, Replay(u, origin, run), e)
    requires e.WriteTemp? || e.Evict? || (e.Remove? && e.name !in Items(Replay(u, origin, run).pending))
    ensures Tracks(d, u, origin, run + [e], k)
  {
    assert (run + [e])[..|run|] == run;
    ItemsAfter(u, Replay(u, origin, run), e);
    hide Replay, Items, Enabled, Apply, Since;
    forall i | 0 <= i < |d.items| ensures Since(d.items[i], u, origin, run + [e], k) {
      SinceLater(d.items[i], u, origin, run, e, k);
    }
  }

  /** A sync of the directory makes the changes so far durable. */
  lemma TracksSync(d: Disk, u: Setup, origin: Store, run: seq<Event>, k: nat)
    requires Tracks(d, u, origin, run, k)
    ensures Tracks(Next(d, SyncDirectory), u, origin, run, |run|)
  {
    SinceNow(u, origin, run, |run|);
    hide Replay, Items, Since;
  }

  /** So what a crash leaves of the disk is what it may leave of the run. */
  lemma DiskLeavesPending(d: Disk, u: Setup, origin: Store, run: seq<Event>, k: nat, after: map<string, Entry>)
    requires Sane(d) && Tracks(d, u, origin, run, k) && CrashLeaves(d, after)
    ensures PendingLeft(u, origin, run, k, after)
  {
    forall name | IsItemName(name)
      ensures name in after ==> after[name].File?
      ensures exists j :: k <= j <= |run| && ItemAsAt(u, origin, run, after, name, j)
    {
      NameLeft(d, after, name);
      OnlyFilesLeft(d, after, name);
      hide Replay, Sane, CrashLeaves, IsItemName;
      var i :| 0 <= i < |d.items| && (name in Items(after) <==> name in d.items[i])
               && (name in Items(after) ==> Items(after)[name] == d.items[i][name]);
      assert Since(d.items[i], u, origin, run, k);
      var j :| k <= j <= |run| && d.items[i] == Items(At(u, origin, run, j).pending);
      SameItem(after, At(u, origin, run, j).pending, name);
      assert ItemAsAt(u, origin, run, after, name, j);
    }
  }

  lemma OnlyFilesLeft(d: Disk, after: map<string, Entry>, name: string)
    requires CrashLeaves(d, after)
    ensures name in after ==> after[name].File?
  {
    assert MayBeLeft(d, after, name);
  }

  lemma SameItem(a: map<string, Entry>, b: map<string, Entry>, name: string)
    requires IsItemName(name)
    requires name in Items(a) <==> name in Items(b)
    requires name in Items(a) ==> Items(a)[name] == Items(b)[name]
    ensures ItemAt(a, name) == ItemAt(b, name)
  {
  }

  // -------------------------------------------------------------------- books

  /** A crash after `run`, with the pending directory last synced after the first
      `kp` changes and the quarantine after the first `kq`, that left these
      directories. */
  datatype Crash = Crash(u: Setup, origin: Store, run: seq<Event>, kp: nat, kq: nat, pending: map<string, Entry>,
                         quarantine: map<string, Entry>)

  function Final(c: Crash): Store {
    Replay(c.u, c.origin, c.run)
  }

  /** Where a crash has left a stored item. */
  predicate InPending(pending: map<string, Entry>, id: string) {
    FileName(id) in pending
  }

  ghost predicate InQuarantine(quarantine: map<string, Entry>, id: string) {
    exists file :: file in quarantine && Base(file) == FileName(id)
  }

  /** The quarantine fate the item has had in the run. */
  ghost function QuarantineFate(u: Setup, origin: Store, run: seq<Event>, id: string): Option<Fate> {
    var s := Replay(u, origin, run);
    if id in s.ledger && s.ledger[id].Quarantined? then Some(s.ledger[id])
    else if run == [] then None
    else QuarantineFate(u, origin, run[..|run| - 1], id)
  }

  /** The fate the books record at restart. */
  ghost function FateLeft(c: Crash, id: string): Fate
    requires id in Final(c).ledger
  {
    var was, fate := QuarantineFate(c.u, c.origin, c.run, id), Final(c).ledger[id];
    if InPending(c.pending, id) then Pending
    else if InQuarantine(c.quarantine, id) && was.Some? then was.value
    else if fate.Quarantined? then Lost
    else fate
  }

  /** An item whose storing was not made durable is forgotten. */
  ghost predicate Remembered(c: Crash, id: string) {
    var s := Final(c);
    id in s.ledger && (InPending(c.pending, id) || InQuarantine(c.quarantine, id) || !s.ledger[id].Pending?)
  }

  /** The books at restart. */
  ghost function Restarted(c: Crash): Store {
    var s := Final(c);
    Store(c.pending, c.quarantine,
          map id | id in s.ledger && Remembered(c, id) :: FateLeft(c, id),
          map id | id in s.ledger && id in s.births && Remembered(c, id) :: s.births[id])
  }

  // --------------------------------------------------------- facts about runs

  /** Between any two moments of a run. */
  lemma Meanwhile(u: Setup, origin: Store, run: seq<Event>, j: nat)
    requires ValidSetup(u) && Sound(u, origin) && Legal(u, origin, run) && j <= |run|
    ensures Sound(u, At(u, origin, run, j)) && Sound(u, Replay(u, origin, run))
    ensures Later(At(u, origin, run, j), Replay(u, origin, run))
  {
    hide Sound, Legal, Replay, Later;
    LegalPrefix(u, origin, run, j);
    RunSound(u, origin, run[..j]);
    RunSound(u, origin, run);
    RunLater(u, origin, run, j);
  }

  /** A quarantine fate, once there, is what is remembered of the item. */
  lemma {:induction false} FateRemembered(u: Setup, origin: Store, run: seq<Event>, j: nat, id: string)
    requires ValidSetup(u) && Sound(u, origin) && Legal(u, origin, run) && j <= |run|
    requires id in At(u, origin, run, j).ledger && At(u, origin, run, j).ledger[id].Quarantined?
    ensures QuarantineFate(u, origin, run, id) == Some(At(u, origin, run, j).ledger[id])
  {
    hide Sound, Legal;
    Meanwhile(u, origin, run, j);
    BothBooks(u, At(u, origin, run, j), id);
    if j < |run| {
      var shorter := run[..|run| - 1];
      LegalPrefix(u, origin, run, |run| - 1);
      assert shorter[..j] == run[..j];
      hide Replay;
      FateRemembered(u, origin, shorter, j, id);
    } else {
      assert run[..j] == run;
    }
  }

  lemma BothBooks(u: Setup, s: Store, id: string)
    requires Sound(u, s)
    ensures id in s.ledger <==> id in s.births
  {
  }

  /** The files of a stored item, by the books of a moment. */
  lemma ByTheBooks(u: Setup, s: Store, id: string)
    requires Sound(u, s) && id in s.ledger
    ensures id in s.births && 0 < s.births[id].created <= MAX_INT64 && IsRandom(s.births[id].random)
    ensures id == MakeId(s.births[id].created, s.births[id].random)
    ensures FileName(id) in s.pending <==> s.ledger[id].Pending?
    ensures s.ledger[id].Pending? ==> Holds(u, s.births[id], s.pending[FileName(id)])
    ensures forall file :: file in s.quarantine && Base(file) == FileName(id) ==>
              s.ledger[id].Quarantined? && s.ledger[id].file == file && s.quarantine[file] == File(Encode(u, s.ledger[id].last))
    ensures s.ledger[id].Quarantined? ==>
              && Faithfully(s.births[id], s.ledger[id].last) && Base(s.ledger[id].file) == FileName(id)
              && s.ledger[id].file in s.quarantine
    ensures s.ledger[id].Expired? ==> PastTtl(u, s.births[id].created, s.ledger[id].at)
    ensures s.ledger[id].Dropped? ==>
              Faithfully(s.births[id], s.ledger[id].last) && |Encode(u, s.ledger[id].last)| > u.limits.maxQuarantineBytes
  {
    assert SoundId(u, s, id);
    hide Holds, Encode, MakeId, IsRandom, HasSuffix;
    IdOfFileName(id);
    forall file | file in s.quarantine && Base(file) == FileName(id)
      ensures s.ledger[id].Quarantined? && s.ledger[id].file == file
    {
      assert SoundFile(s, file);
    }
  }

  // ------------------------------------------------------------------ restart

  /** Everything a crash after this run may leave. */
  ghost predicate CrashedRun(c: Crash) {
    && ValidSetup(c.u) && Sound(c.u, c.origin) && Legal(c.u, c.origin, c.run) && c.kp <= |c.run| && c.kq <= |c.run|
    && PendingLeft(c.u, c.origin, c.run, c.kp, c.pending) && QuarantineLeft(c.u, c.origin, c.run, c.kq, c.quarantine)
    && Unclaimed(At(c.u, c.origin, c.run, if c.kp < c.kq then c.kp else c.kq), Final(c).ledger.Keys)
  }

  /** A stored item that is left among the pending ones holds what was stored. */
  lemma LeftItemHolds(c: Crash, id: string) returns (j: nat)
    requires CrashedRun(c)
    requires id in Final(c).ledger && InPending(c.pending, id)
    ensures c.kp <= j <= |c.run| && id in At(c.u, c.origin, c.run, j).ledger && At(c.u, c.origin, c.run, j).ledger[id].Pending?
    ensures id in Final(c).births && Holds(c.u, Final(c).births[id], c.pending[FileName(id)])
  {
    hide Sound, Legal, Replay, Holds, Unclaimed, ReadEnvelope, HasSuffix;
    var name := FileName(id);
    j :| c.kp <= j <= |c.run| && ItemAsAt(c.u, c.origin, c.run, c.pending, name, j);
    var s := At(c.u, c.origin, c.run, j);
    RunUnclaimed(c.u, c.origin, c.run, if c.kp < c.kq then c.kp else c.kq, j, Final(c).ledger.Keys);
    ClaimedKnown(s, Final(c).ledger.Keys, id);
    Meanwhile(c.u, c.origin, c.run, j);
    ByTheBooks(c.u, s, id);
    HeldFile(c.u, s.births[id], s.pending[name]);
  }

  lemma HeldFile(u: Setup, b: Birth, entry: Entry)
    ensures Holds(u, b, entry) ==> entry.File?
  {
  }

  lemma ClaimedKnown(s: Store, ids: set<string>, id: string)
    requires Unclaimed(s, ids) && id in ids
    ensures FileName(id) in s.pending ==> id in s.ledger
    ensures forall file :: file in s.quarantine && Base(file) == FileName(id) ==> id in s.ledger
  {
  }

  /** A quarantine file left of a stored item is the one it was moved to. */
  lemma LeftFileHolds(c: Crash, id: string, file: string) returns (j: nat)
    requires CrashedRun(c)
    requires id in Final(c).ledger && file in c.quarantine && Base(file) == FileName(id)
    ensures c.kq <= j <= |c.run| && id in At(c.u, c.origin, c.run, j).ledger && At(c.u, c.origin, c.run, j).ledger[id].Quarantined?
    ensures var was := QuarantineFate(c.u, c.origin, c.run, id);
            && was.Some? && was.value.Quarantined? && was.value.file == file
            && c.quarantine[file] == File(Encode(c.u, was.value.last))
            && id in Final(c).births && Faithfully(Final(c).births[id], was.value.last)
  {
    hide Sound, Legal, Replay, Unclaimed, Encode, QuarantineFate, Base, FileName;
    assert FileLeft(c.u, c.origin, c.run, c.kq, c.quarantine, file);
    j :| c.kq <= j <= |c.run| && FileAsAt(c.u, c.origin, c.run, c.quarantine, file, j);
    var s := At(c.u, c.origin, c.run, j);
    RunUnclaimed(c.u, c.origin, c.run, if c.kp < c.kq then c.kp else c.kq, j, Final(c).ledger.Keys);
    ClaimedKnown(s, Final(c).ledger.Keys, id);
    Meanwhile(c.u, c.origin, c.run, j);
    ByTheBooks(c.u, s, id);
    FateRemembered(c.u, c.origin, c.run, j, id);
  }

  /** No stored item is left in both directories. */
  ghost predicate NoneTwice(c: Crash) {
    forall id :: id in Final(c).ledger ==> !(InPending(c.pending, id) && InQuarantine(c.quarantine, id))
  }

  lemma RestartedAt(c: Crash, id: string)
    requires Remembered(c, id) && id in Final(c).births
    ensures var t := Restarted(c);
            && t.pending == c.pending && t.quarantine == c.quarantine
            && id in t.ledger && t.ledger[id] == FateLeft(c, id)
            && id in t.births && t.births[id] == Final(c).births[id]
  {
    hide Replay, FateLeft, InPending, InQuarantine;
  }

  /** The id is made of its birth. */
  predicate Named(b: Birth, id: string) {
    0 < b.created <= MAX_INT64 && IsRandom(b.random) && id == MakeId(b.created, b.random)
  }

  lemma PendingSound(u: Setup, t: Store, id: string)
    requires id in t.ledger && id in t.births && Named(t.births[id], id) && t.ledger[id].Pending?
    requires FileName(id) in t.pending && Holds(u, t.births[id], t.pending[FileName(id)])
    ensures SoundId(u, t, id)
  {
    hide Holds, MakeId, IsRandom;
  }

  lemma QuarantinedSound(u: Setup, t: Store, id: string)
    requires id in t.ledger && id in t.births && Named(t.births[id], id) && t.ledger[id].Quarantined?
    requires FileName(id) !in t.pending && Faithfully(t.births[id], t.ledger[id].last)
    requires Base(t.ledger[id].file) == FileName(id) && t.ledger[id].file in t.quarantine
    requires t.quarantine[t.ledger[id].file] == File(Encode(u, t.ledger[id].last))
    ensures SoundId(u, t, id)
  {
    hide MakeId, IsRandom, Encode, Base;
  }

  /** A fate that leaves no file is as right as it was. */
  lemma GoneSound(u: Setup, s: Store, t: Store, id: string)
    requires Sound(u, s) && id in s.ledger && id in s.births && id in t.ledger && id in t.births
    requires t.births[id] == s.births[id] && FileName(id) !in t.pending
    requires t.ledger[id] == Lost || (t.ledger[id] == s.ledger[id] && !s.ledger[id].Pending? && !s.ledger[id].Quarantined?)
    ensures SoundId(u, t, id)
  {
    assert SoundId(u, s, id);
    hide Sound, MakeId, IsRandom, Encode, Base;
  }

  lemma RestartedPending(c: Crash, id: string)
    requires CrashedRun(c) && Remembered(c, id) && Sound(c.u, Final(c)) && InPending(c.pending, id)
    ensures id in Restarted(c).ledger && id in Restarted(c).births && SoundId(c.u, Restarted(c), id)
  {
    RememberedKnown(c, id);
    ByTheBooks(c.u, Final(c), id);
    hide Sound, Final, Encode, Base, FileName, Holds, MakeId, IsRandom, CrashedRun, SoundId, Restarted, PastTtl, Faithfully,
         InPending, QuarantineFate, At;
    RestartedAt(c, id);
    var j := LeftItemHolds(c, id);
    PendingIs(c.pending, id);
    PendingSound(c.u, Restarted(c), id);
  }

  lemma PendingIs(pending: map<string, Entry>, id: string)
    ensures InPending(pending, id) <==> FileName(id) in pending
  {
  }

  lemma RememberedKnown(c: Crash, id: string)
    requires Remembered(c, id)
    ensures id in Final(c).ledger
    ensures InPending(c.pending, id) || InQuarantine(c.quarantine, id) || !Final(c).ledger[id].Pending?
  {
    hide Final, InPending, InQuarantine;
  }

  lemma RestartedQuarantined(c: Crash, id: string)
    requires CrashedRun(c) && Remembered(c, id) && Sound(c.u, Final(c))
    requires !InPending(c.pending, id) && InQuarantine(c.quarantine, id)
    ensures id in Restarted(c).ledger && id in Restarted(c).births && SoundId(c.u, Restarted(c), id)
  {
    RememberedKnown(c, id);
    ByTheBooks(c.u, Final(c), id);
    var file :| file in c.quarantine && Base(file) == FileName(id);
    var j := LeftFileHolds(c, id, file);
    hide Sound, Final, Encode, Base, FileName, Holds, MakeId, IsRandom, CrashedRun, SoundId, Restarted, PastTtl, Faithfully,
         InPending, QuarantineFate, At;
    RestartedAt(c, id);
    PendingIs(c.pending, id);
    QuarantinedSound(c.u, Restarted(c), id);
  }

  lemma RestartedGone(c: Crash, id: string)
    requires CrashedRun(c) && Remembered(c, id) && Sound(c.u, Final(c))
    requires !InPending(c.pending, id) && !InQuarantine(c.quarantine, id)
    ensures id in Restarted(c).ledger && id in Restarted(c).births && SoundId(c.u, Restarted(c), id)
  {
    RememberedKnown(c, id);
    BothBooks(c.u, Final(c), id);
    hide Sound, Final, CrashedRun, SoundId, Restarted, InPending, InQuarantine, QuarantineFate, FileName;
    RestartedAt(c, id);
    PendingIs(c.pending, id);
    GoneSound(c.u, Final(c), Restarted(c), id);
  }

  lemma RestartedId(c: Crash, id: string)
    requires CrashedRun(c) && Remembered(c, id)
    ensures id in Restarted(c).ledger && id in Restarted(c).births && SoundId(c.u, Restarted(c), id)
  {
    SyncedWithin(c);
    FinalIs(c);
    hide *;
    Meanwhile(c.u, c.origin, c.run, 0);
    if InPending(c.pending, id) {
      RestartedPending(c, id);
    } else if InQuarantine(c.quarantine, id) {
      RestartedQuarantined(c, id);
    } else {
      RestartedGone(c, id);
    }
  }

  lemma SyncedWithin(c: Crash)
    requires CrashedRun(c)
    ensures ValidSetup(c.u) && Sound(c.u, c.origin) && Legal(c.u, c.origin, c.run) && c.kp <= |c.run|
  {
  }

  lemma FinalIs(c: Crash)
    ensures Final(c) == Replay(c.u, c.origin, c.run)
  {
  }

  lemma RestartedFile(c: Crash, file: string)
    requires CrashedRun(c) && NoneTwice(c)
    requires file in c.quarantine
    ensures SoundFile(Restarted(c), file)
  {
    hide CrashedRun, Replay, QuarantineFate, Base, HasSuffix, Encode;
    if IsItemName(Base(file)) && IdOf(Base(file)) in Final(c).ledger {
      var id := IdOf(Base(file));
      assert InQuarantine(c.quarantine, id);
      var j := LeftFileHolds(c, id, file);
    }
  }

  lemma RestartedBooks(c: Crash)
    requires Sound(c.u, Final(c))
    ensures var t := Restarted(c);
            && t.births.Keys == t.ledger.Keys && t.pending == c.pending && t.quarantine == c.quarantine
    ensures forall id :: id in Restarted(c).ledger <==> Remembered(c, id)
  {
    hide Replay, FateLeft, InPending, InQuarantine, SoundId, SoundFile;
  }

  lemma RestartSound(c: Crash)
    requires CrashedRun(c) && NoneTwice(c)
    ensures Sound(c.u, Restarted(c))
  {
    var t := Restarted(c);
    Meanwhile(c.u, c.origin, c.run, 0);
    RestartedBooks(c);
    hide CrashedRun, NoneTwice, Remembered, Restarted, SoundId, SoundFile, Replay, Later;
    forall id | id in t.ledger ensures id in t.births && SoundId(c.u, t, id) {
      RestartedId(c, id);
    }
    forall file | file in t.quarantine ensures SoundFile(t, file) {
      RestartedFile(c, file);
    }
  }

  /** The books `t` of these directories know every item that is left and every
      fate. */
  ghost predicate Complete(c: Crash, t: Store) {
    && t.pending == c.pending && t.quarantine == c.quarantine
    && forall id :: Remembered(c, id) ==> id in t.ledger
  }

  /** After a crash the directories can be opened again with sound and complete
      books, those of `Restarted`, exactly if no item is left in both. */
  lemma RestartSoundIff(c: Crash)
    requires CrashedRun(c)
    ensures Complete(c, Restarted(c))
    ensures Sound(c.u, Restarted(c)) <==> NoneTwice(c)
    ensures forall t :: Complete(c, t) && Sound(c.u, t) ==> NoneTwice(c)
  {
    Meanwhile(c.u, c.origin, c.run, 0);
    RestartedBooks(c);
    hide CrashedRun, NoneTwice, Remembered, Restarted, Sound, Replay, Later;
    if NoneTwice(c) {
      RestartSound(c);
    }
    forall t | Complete(c, t) && Sound(c.u, t) ensures NoneTwice(c) {
      SoundNoneTwice(c, t);
    }
  }

  lemma SoundNoneTwice(c: Crash, x: Store)
    requires Sound(c.u, x) && x.pending == c.pending && x.quarantine == c.quarantine
    requires forall id :: Remembered(c, id) ==> id in x.ledger
    ensures NoneTwice(c)
  {
    hide Sound, Replay;
    forall id | id in Final(c).ledger ensures !(InPending(c.pending, id) && InQuarantine(c.quarantine, id)) {
      if InPending(c.pending, id) {
        assert Remembered(c, id);
        ByTheBooks(c.u, x, id);
      }
    }
  }

  lemma FateBetween(u: Setup, origin: Store, run: seq<Event>, k: nat, j: nat, id: string)
    requires ValidSetup(u) && Sound(u, origin) && Legal(u, origin, run) && k <= j <= |run|
    requires id in At(u, origin, run, k).ledger && id in Replay(u, origin, run).ledger
    requires At(u, origin, run, k).ledger[id] == Replay(u, origin, run).ledger[id]
    ensures Sound(u, At(u, origin, run, j)) && id in At(u, origin, run, j).ledger
    ensures At(u, origin, run, j).ledger[id] == Replay(u, origin, run).ledger[id]
  {
    hide Sound, Legal, Replay;
    Meanwhile(u, origin, run, j);
    LegalPrefix(u, origin, run, j);
    assert run[..j][..k] == run[..k];
    Meanwhile(u, origin, run[..j], k);
    BothBooks(u, At(u, origin, run, k), id);
    BothBooks(u, At(u, origin, run, j), id);
  }

  lemma SyncedNotPending(c: Crash, id: string, k: nat)
    requires CrashedRun(c) && k <= c.kp
    requires id in At(c.u, c.origin, c.run, k).ledger && id in Final(c).ledger
    requires At(c.u, c.origin, c.run, k).ledger[id] == Final(c).ledger[id]
    ensures InPending(c.pending, id) ==> Final(c).ledger[id].Pending?
  {
    if InPending(c.pending, id) {
      var j := LeftItemHolds(c, id);
      hide Sound, Legal, Replay, Unclaimed, Holds, PendingLeft, QuarantineLeft;
      FateBetween(c.u, c.origin, c.run, k, j, id);
    }
  }

  lemma SyncedNoFile(c: Crash, id: string, k: nat)
    requires CrashedRun(c) && k <= c.kq
    requires id in At(c.u, c.origin, c.run, k).ledger && id in Final(c).ledger
    requires At(c.u, c.origin, c.run, k).ledger[id] == Final(c).ledger[id]
    ensures InQuarantine(c.quarantine, id) ==> Final(c).ledger[id].Quarantined?
  {
    if InQuarantine(c.quarantine, id) {
      var file :| file in c.quarantine && Base(file) == FileName(id);
      var j := LeftFileHolds(c, id, file);
      hide Sound, Legal, Replay, Unclaimed, Encode, PendingLeft, QuarantineLeft, QuarantineFate, Base;
      FateBetween(c.u, c.origin, c.run, k, j, id);
    }
  }

  lemma FinalBooks(c: Crash, id: string)
    requires CrashedRun(c) && id in Final(c).ledger
    ensures id in Final(c).births
    ensures Final(c).ledger[id].Quarantined? ==> QuarantineFate(c.u, c.origin, c.run, id) == Some(Final(c).ledger[id])
  {
    hide Sound, Legal, QuarantineFate, Unclaimed, PendingLeft, QuarantineLeft;
    Meanwhile(c.u, c.origin, c.run, 0);
    BothBooks(c.u, Final(c), id);
    assert c.run[..|c.run|] == c.run;
    hide Replay;
    if Final(c).ledger[id].Quarantined? {
      FateRemembered(c.u, c.origin, c.run, |c.run|, id);
    }
  }

  /** An item nothing has happened to since both directories were synced has the
      fate it had. */
  lemma SyncedFateKept(c: Crash, id: string, k: nat)
    requires CrashedRun(c)
    requires k <= c.kp && k <= c.kq
    requires id in At(c.u, c.origin, c.run, k).ledger && id in Final(c).ledger
    requires At(c.u, c.origin, c.run, k).ledger[id] == Final(c).ledger[id]
    ensures id in Restarted(c).ledger && Restarted(c).ledger[id] == Final(c).ledger[id]
  {
    hide CrashedRun, Final, QuarantineFate, At, Restarted, InPending, InQuarantine;
    FinalBooks(c, id);
    SyncedNotPending(c, id, k);
    SyncedNoFile(c, id, k);
    if Final(c).ledger[id].Pending? {
      SyncedPending(c, id, k);
    } else if Final(c).ledger[id].Quarantined? {
      SyncedFile(c, id, k);
    }
    RestartedAt(c, id);
  }

  lemma SyncedPending(c: Crash, id: string, k: nat)
    requires CrashedRun(c) && k <= c.kp
    requires id in At(c.u, c.origin, c.run, k).ledger && id in Final(c).ledger
    requires At(c.u, c.origin, c.run, k).ledger[id] == Final(c).ledger[id] && Final(c).ledger[id].Pending?
    ensures InPending(c.pending, id)
  {
    hide Sound, Legal, Replay, Unclaimed, Holds, HasSuffix, MakeId, IsRandom;
    var j :| c.kp <= j <= |c.run| && ItemAsAt(c.u, c.origin, c.run, c.pending, FileName(id), j);
    FateBetween(c.u, c.origin, c.run, k, j, id);
    var s := At(c.u, c.origin, c.run, j);
    ByTheBooks(c.u, s, id);
    HeldFile(c.u, s.births[id], s.pending[FileName(id)]);
  }

  lemma SyncedFile(c: Crash, id: string, k: nat)
    requires CrashedRun(c) && k <= c.kq
    requires id in At(c.u, c.origin, c.run, k).ledger && id in Final(c).ledger
    requires At(c.u, c.origin, c.run, k).ledger[id] == Final(c).ledger[id] && Final(c).ledger[id].Quarantined?
    ensures InQuarantine(c.quarantine, id)
  {
    hide Sound, Legal, Replay, Unclaimed, Holds, HasSuffix, MakeId, IsRandom, Base, Encode;
    var file := Final(c).ledger[id].file;
    assert FileLeft(c.u, c.origin, c.run, c.kq, c.quarantine, file);
    var j :| c.kq <= j <= |c.run| && FileAsAt(c.u, c.origin, c.run, c.quarantine, file, j);
    FateBetween(c.u, c.origin, c.run, k, j, id);
    ByTheBooks(c.u, At(c.u, c.origin, c.run, j), id);
  }

  // ------------------------------------------------- a crash during quarantining

  ghost predicate MayLeave(u: Setup, origin: Store, run: seq<Event>, kp: nat, kq: nat, pending: map<string, Entry>,
                           quarantine: map<string, Entry>) {
    PendingLeft(u, origin, run, kp, pending) && QuarantineLeft(u, origin, run, kq, quarantine)
  }

  /** The items of one moment and the quarantine of another may be left. */
  lemma TwoMomentsLeft(u: Setup, origin: Store, run: seq<Event>, kp: nat, kq: nat, i: nat, j: nat)
    requires kp <= i <= |run| && kq <= j <= |run|
    ensures MayLeave(u, origin, run, kp, kq, FilesOf(Items(At(u, origin, run, i).pending)), At(u, origin, run, j).quarantine)
  {
    hide Replay, HasSuffix;
    var pending := FilesOf(Items(At(u, origin, run, i).pending));
    forall name | IsItemName(name) ensures ItemAsAt(u, origin, run, pending, name, i) {
    }
    forall file: string ensures FileLeft(u, origin, run, kq, At(u, origin, run, j).quarantine, file) {
      assert FileAsAt(u, origin, run, At(u, origin, run, j).quarantine, file, j);
    }
  }

  lemma UnmovedItem(u: Setup, s: Store, id: string)
    requires Sound(u, s) && id in s.ledger && s.ledger[id].Pending?
    ensures FileName(id) in Items(s.pending) && !InQuarantine(s.quarantine, id)
  {
    ByTheBooks(u, s, id);
    HeldFile(u, s.births[id], s.pending[FileName(id)]);
    hide Sound, Holds, HasSuffix, Base;
  }

  /** Where an item is around the change that quarantines it. */
  lemma MovedMoments(u: Setup, origin: Store, run: seq<Event>, n: nat, id: string, reason: string)
    requires ValidSetup(u) && Sound(u, origin) && Legal(u, origin, run) && n < |run|
    requires run[n] == Move(FileName(id), reason)
    requires id in At(u, origin, run, n).ledger && At(u, origin, run, n).ledger[id].Pending?
    ensures FileName(id) in Items(At(u, origin, run, n).pending) && !InQuarantine(At(u, origin, run, n).quarantine, id)
    ensures id in At(u, origin, run, n + 1).ledger
    ensures At(u, origin, run, n + 1).ledger[id].Quarantined?
  {
    hide Sound, QuarantineName, Base, Items, LastItem, Fits;
    LegalPrefix(u, origin, run, n + 1);
    assert run[..n + 1][..n] == run[..n];
    Meanwhile(u, origin, run, n);
    UnmovedItem(u, At(u, origin, run, n), id);
    IdOfFileName(id);
  }

  /** A crash can leave the item in neither directory. */
  ghost predicate CanLose(u: Setup, origin: Store, run: seq<Event>, kp: nat, kq: nat, id: string) {
    exists p, q :: MayLeave(u, origin, run, kp, kq, p, q) && !InPending(p, id) && !InQuarantine(q, id)
  }

  /** A crash can leave the item in both directories. */
  ghost predicate CanDouble(u: Setup, origin: Store, run: seq<Event>, kp: nat, kq: nat, id: string) {
    exists p, q :: MayLeave(u, origin, run, kp, kq, p, q) && InPending(p, id) && InQuarantine(q, id)
  }

  lemma LostWitness(u: Setup, origin: Store, run: seq<Event>, kp: nat, kq: nat, id: string, p: map<string, Entry>, q: map<string, Entry>)
    requires MayLeave(u, origin, run, kp, kq, p, q)
    ensures !InPending(p, id) && !InQuarantine(q, id) ==> CanLose(u, origin, run, kp, kq, id)
    ensures InPending(p, id) && InQuarantine(q, id) ==> CanDouble(u, origin, run, kp, kq, id)
  {
    hide MayLeave, InPending, InQuarantine;
  }

  lemma AmongFiles(pending: map<string, Entry>, id: string)
    ensures InPending(FilesOf(Items(pending)), id) <==> FileName(id) in Items(pending)
    ensures FileName(id) !in pending ==> FileName(id) !in Items(pending)
  {
  }

  /** The item was quarantined by the n-th change and has been there since. */
  ghost predicate MovedFor(u: Setup, origin: Store, run: seq<Event>, n: nat, id: string, reason: string) {
    && ValidSetup(u) && Sound(u, origin) && Legal(u, origin, run) && n < |run| && run[n] == Move(FileName(id), reason)
    && id in At(u, origin, run, n).ledger && At(u, origin, run, n).ledger[id].Pending?
    && id in At(u, origin, run, n + 1).ledger && id in Replay(u, origin, run).ledger
    && At(u, origin, run, n + 1).ledger[id] == Replay(u, origin, run).ledger[id]
  }

  /** Since then it is in the quarantine and not among the pending ones. */
  lemma MovedSince(u: Setup, origin: Store, run: seq<Event>, n: nat, id: string, reason: string, j: nat)
    requires MovedFor(u, origin, run, n, id, reason) && n < j <= |run|
    ensures FileName(id) !in At(u, origin, run, j).pending
    ensures id in Replay(u, origin, run).ledger && Replay(u, origin, run).ledger[id].Quarantined?
    ensures var file := Replay(u, origin, run).ledger[id].file;
            file in At(u, origin, run, j).quarantine && Base(file) == FileName(id)
  {
    hide Sound, Legal, Replay, Base, FileName, InQuarantine;
    MovedMoments(u, origin, run, n, id, reason);
    FateBetween(u, origin, run, n + 1, j, id);
    ByTheBooks(u, At(u, origin, run, j), id);
  }

  lemma SyncedFileLeft(u: Setup, origin: Store, run: seq<Event>, n: nat, id: string, reason: string, kp: nat, kq: nat,
                       p: map<string, Entry>, q: map<string, Entry>)
    requires MovedFor(u, origin, run, n, id, reason) && n < kq <= |run| && MayLeave(u, origin, run, kp, kq, p, q)
    ensures InQuarantine(q, id)
  {
    hide Replay, Base, FileName, MovedFor;
    MovedSince(u, origin, run, n, id, reason, kq);
    var file := Replay(u, origin, run).ledger[id].file;
    assert FileLeft(u, origin, run, kq, q, file);
    var j :| kq <= j <= |run| && FileAsAt(u, origin, run, q, file, j);
    MovedSince(u, origin, run, n, id, reason, j);
  }

  lemma SyncedAbsence(u: Setup, origin: Store, run: seq<Event>, n: nat, id: string, reason: string, kp: nat, kq: nat,
                      p: map<string, Entry>, q: map<string, Entry>)
    requires MovedFor(u, origin, run, n, id, reason) && n < kp <= |run| && MayLeave(u, origin, run, kp, kq, p, q)
    ensures !InPending(p, id)
  {
    hide Replay, MovedFor, QuarantineLeft;
    var j :| kp <= j <= |run| && ItemAsAt(u, origin, run, p, FileName(id), j);
    MovedSince(u, origin, run, n, id, reason, j);
  }

  lemma QuarantineHas(quarantine: map<string, Entry>, file: string, id: string)
    requires file in quarantine && Base(file) == FileName(id)
    ensures InQuarantine(quarantine, id)
  {
  }

  lemma MovedForFacts(u: Setup, origin: Store, run: seq<Event>, n: nat, id: string, reason: string)
    requires MovedFor(u, origin, run, n, id, reason)
    ensures n < |run|
    ensures FileName(id) in Items(At(u, origin, run, n).pending) && !InQuarantine(At(u, origin, run, n).quarantine, id)
  {
    hide Sound, Legal, Replay, Items, InQuarantine;
    MovedMoments(u, origin, run, n, id, reason);
  }

  /** For as long as a moved item stays in the quarantine, whatever else goes on:
      a crash can lose it exactly until the quarantine is synced after the move. */
  lemma LoseIff(u: Setup, origin: Store, run: seq<Event>, n: nat, id: string, reason: string, kp: nat, kq: nat)
    requires MovedFor(u, origin, run, n, id, reason) && kp <= |run| && kq <= |run|
    ensures CanLose(u, origin, run, kp, kq, id) <==> kq <= n
  {
    hide *;
    MovedForFacts(u, origin, run, n, id, reason);
    if kq <= n {
      var pending := At(u, origin, run, |run|).pending;
      MovedSince(u, origin, run, n, id, reason, |run|);
      TwoMomentsLeft(u, origin, run, kp, kq, |run|, n);
      AmongFiles(pending, id);
      LostWitness(u, origin, run, kp, kq, id, FilesOf(Items(pending)), At(u, origin, run, n).quarantine);
    } else {
      forall p, q | MayLeave(u, origin, run, kp, kq, p, q) ensures InQuarantine(q, id) {
        SyncedFileLeft(u, origin, run, n, id, reason, kp, kq, p, q);
      }
      NeverLost(u, origin, run, kp, kq, id);
    }
  }

  lemma NeverLost(u: Setup, origin: Store, run: seq<Event>, kp: nat, kq: nat, id: string)
    requires forall p, q :: MayLeave(u, origin, run, kp, kq, p, q) ==> InQuarantine(q, id)
    ensures !CanLose(u, origin, run, kp, kq, id)
  {
    hide MayLeave, InPending, InQuarantine;
  }

  lemma NeverDoubled(u: Setup, origin: Store, run: seq<Event>, kp: nat, kq: nat, id: string)
    requires forall p, q :: MayLeave(u, origin, run, kp, kq, p, q) ==> !InPending(p, id)
    ensures !CanDouble(u, origin, run, kp, kq, id)
  {
    hide MayLeave, InPending, InQuarantine;
  }

  /** And it can leave the item twice exactly until the pending directory is. */
  lemma DoubleIff(u: Setup, origin: Store, run: seq<Event>, n: nat, id: string, reason: string, kp: nat, kq: nat)
    requires MovedFor(u, origin, run, n, id, reason) && kp <= |run| && kq <= |run|
    ensures CanDouble(u, origin, run, kp, kq, id) <==> kp <= n
  {
    hide *;
    MovedForFacts(u, origin, run, n, id, reason);
    if kp <= n {
      var pending, quarantine := At(u, origin, run, n).pending, At(u, origin, run, |run|).quarantine;
      MovedSince(u, origin, run, n, id, reason, |run|);
      TwoMomentsLeft(u, origin, run, kp, kq, n, |run|);
      AmongFiles(pending, id);
      QuarantineHas(quarantine, Replay(u, origin, run).ledger[id].file, id);
      LostWitness(u, origin, run, kp, kq, id, FilesOf(Items(pending)), quarantine);
    } else {
      forall p, q | MayLeave(u, origin, run, kp, kq, p, q) ensures !InPending(p, id) {
        SyncedAbsence(u, origin, run, n, id, reason, kp, kq, p, q);
      }
      NeverDoubled(u, origin, run, kp, kq, id);
    }
  }

  /** The pending directory is synced before the quarantine is: between the two
      syncs, and for ever if the second one fails, the item can be lost but not
      left twice. */
  lemma CrashDuringMove(u: Setup, origin: Store, run: seq<Event>, n: nat, id: string, reason: string, kp: nat, kq: nat)
    requires MovedFor(u, origin, run, n, id, reason) && kp <= |run| && kq <= |run|
    // before either sync
    ensures kp <= n && kq <= n ==> CanLose(u, origin, run, kp, kq, id) && CanDouble(u, origin, run, kp, kq, id)
    // after the first
    ensures kq <= n < kp ==> CanLose(u, origin, run, kp, kq, id) && !CanDouble(u, origin, run, kp, kq, id)
    // after both
    ensures n < kp && n < kq ==> !CanLose(u, origin, run, kp, kq, id) && !CanDouble(u, origin, run, kp, kq, id)
  {
    hide *;
    LoseIff(u, origin, run, n, id, reason, kp, kq);
    DoubleIff(u, origin, run, n, id, reason, kp, kq);
  }

  // -------------------------------------------------- the disk and the run at once

  /** A system call, a change of the directories, or both: a rename or an unlink
      is the one and makes the other. */
  datatype Tie = OnDisk(step: Step) | InRun(change: Event) | Tied(step: Step, change: Event)

  /** Disk and run so far, and how many changes there were at the last sync. */
  datatype Joint = Joint(disk: Disk, run: seq<Event>, synced: nat)

  ghost predicate MayTie(u: Setup, origin: Store, j: Joint, t: Tie) {
    var s := Replay(u, origin, j.run);
    match t
    case OnDisk(step) => Possible(j.disk, step) && !step.Rename? && !step.Unlink?
    case InRun(e) =>
      Enabled(u, s, e) && (e.WriteTemp? || e.Evict? || (e.Remove? && e.name !in Items(s.pending)))
    case Tied(step, e) =>
      && Possible(j.disk, step) && Enabled(u, s, e)
      && (|| (step.Rename? && WritesItem(u, s, e, j.disk.path, j.disk.content))
          || (step.Unlink? && (e.Remove? || e.Move?) && e.name == step.name))
  }

  function NextJoint(j: Joint, t: Tie): Joint {
    match t
    case OnDisk(step) => Joint(Next(j.disk, step), j.run, if step.SyncDirectory? then |j.run| else j.synced)
    case InRun(e) => j.(run := j.run + [e])
    case Tied(step, e) => j.(disk := Next(j.disk, step), run := j.run + [e])
  }

  function AfterTies(origin: Store, ties: seq<Tie>): Joint {
    if ties == [] then Joint(Booted(origin.pending), [], 0)
    else NextJoint(AfterTies(origin, ties[..|ties| - 1]), ties[|ties| - 1])
  }

  ghost predicate JointRun(u: Setup, origin: Store, ties: seq<Tie>) {
    ties == []
    || (JointRun(u, origin, ties[..|ties| - 1]) && MayTie(u, origin, AfterTies(origin, ties[..|ties| - 1]), ties[|ties| - 1]))
  }

  ghost predicate InStep(u: Setup, origin: Store, j: Joint) {
    Sane(j.disk) && Tracks(j.disk, u, origin, j.run, j.synced) && Legal(u, origin, j.run)
  }

  lemma LegalOneMore(u: Setup, origin: Store, run: seq<Event>, e: Event)
    requires Legal(u, origin, run) && Enabled(u, Replay(u, origin, run), e)
    ensures Legal(u, origin, run + [e])
  {
    hide Enabled, Apply;
    assert (run + [e])[..|run|] == run;
  }

  lemma TieInStep(u: Setup, origin: Store, j: Joint, t: Tie)
    requires InStep(u, origin, j) && MayTie(u, origin, j, t)
    ensures InStep(u, origin, NextJoint(j, t))
  {
    hide Sane, Tracks, Legal, Replay, Enabled, Possible, Next, WritesItem, Items;
    match t
    case OnDisk(step) =>
      StepSane(j.disk, step);
      if step.SyncDirectory? {
        TracksSync(j.disk, u, origin, j.run, j.synced);
      } else {
        TracksSilent(j.disk, step, u, origin, j.run, j.synced);
      }
    case InRun(e) =>
      TracksOther(j.disk, u, origin, j.run, j.synced, e);
      LegalOneMore(u, origin, j.run, e);
    case Tied(step, e) =>
      StepSane(j.disk, step);
      TracksChange(j.disk, step, u, origin, j.run, j.synced, e);
      LegalOneMore(u, origin, j.run, e);
  }

  lemma {:induction false} JointInStep(u: Setup, origin: Store, ties: seq<Tie>)
    requires JointRun(u, origin, ties)
    ensures InStep(u, origin, AfterTies(origin, ties))
  {
    if ties == [] {
      BootSane(origin.pending);
      TracksStart(u, origin);
    } else {
      hide InStep, MayTie, NextJoint;
      JointInStep(u, origin, ties[..|ties| - 1]);
      TieInStep(u, origin, AfterTies(origin, ties[..|ties| - 1]), ties[|ties| - 1]);
    }
  }

  /** Whatever system calls and changes came since the spool was opened, complete
      or given up: a power failure leaves of every item the state of one moment
      since the directory was last synced. */
  lemma PowerFailure(u: Setup, origin: Store, ties: seq<Tie>, after: map<string, Entry>)
    requires JointRun(u, origin, ties) && CrashLeaves(AfterTies(origin, ties).disk, after)
    ensures var j := AfterTies(origin, ties);
            Legal(u, origin, j.run) && j.synced <= |j.run| && PendingLeft(u, origin, j.run, j.synced, after)
  {
    hide Sane, Legal, CrashLeaves, PendingLeft, JointRun, AfterTies;
    JointInStep(u, origin, ties);
    var j := AfterTies(origin, ties);
    DiskLeavesPending(j.disk, u, origin, j.run, j.synced, after);
  }

  /** So the spool can be opened again, with books that remember everything,
      unless that left an item in both directories. */
  lemma RestartAfterPowerFailure(u: Setup, origin: Store, ties: seq<Tie>, kq: nat, after: map<string, Entry>,
                                 quarantine: map<string, Entry>)
    requires ValidSetup(u) && Sound(u, origin)
    requires JointRun(u, origin, ties) && CrashLeaves(AfterTies(origin, ties).disk, after)
    requires kq <= |AfterTies(origin, ties).run| && QuarantineLeft(u, origin, AfterTies(origin, ties).run, kq, quarantine)
    requires Unclaimed(origin, Replay(u, origin, AfterTies(origin, ties).run).ledger.Keys)
    ensures var j := AfterTies(origin, ties);
            var c := Crash(u, origin, j.run, j.synced, kq, after, quarantine);
            && CrashedRun(c) && Complete(c, Restarted(c))
            && (Sound(u, Restarted(c)) <==> NoneTwice(c))
  {
    hide Sound, Legal, CrashLeaves, PendingLeft, QuarantineLeft, JointRun, AfterTies, Complete, Restarted, NoneTwice, Unclaimed,
         Replay;
    PowerFailure(u, origin, ties, after);
    var j := AfterTies(origin, ties);
    StartMoment(u, origin, j.run);
    var k := if j.synced < kq then j.synced else kq;
    RunUnclaimed(u, origin, j.run, 0, k, Replay(u, origin, j.run).ledger.Keys);
    RestartSoundIff(Crash(u, origin, j.run, j.synced, kq, after, quarantine));
  }

  lemma StartMoment(u: Setup, origin: Store, run: seq<Event>)
    ensures At(u, origin, run, 0) == origin
  {
    assert run[..0] == [];
  }
}
