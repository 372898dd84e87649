/** Writing one spool file so that a crash between any two system calls leaves
    the held items or the new ones (internal/agent/probe_spool.go).

    Below the atomic changes of `SpoolModel` lies a disk that has made durable
    only what was synced: the bytes of a file once the file was, an entry of the
    directory once the directory was. */
module DurableWrite {
  import opened SpoolModel

  /** The bytes of a file, and whether they are on the disk. */
  datatype Content = Content(bytes: string, synced: bool)

  /** Where atomicWritePrivateFile stands. */
  datatype Stage = Idle | Opened | Private | Filled | Short | Flushed | Closed | Replaced

  /** A file: one that was found at start, or one made since. */
  datatype Inode = Found(name: string) | Made(number: nat)

  /** `snapshots` are the states the directory was in since it was last synced:
      the first is on the disk, the last is what the programs see. `items` are
      the contents the item names should have had in each of them, by the
      arguments of the calls alone. The rest is the write under way. */
  datatype Disk = Disk(
    files: map<Inode, Content>, snapshots: seq<map<string, Inode>>, items: seq<map<string, string>>,
    stage: Stage, path: string, content: string, temp: string, inode: Inode)

  datatype Step =
    | Create(path: string, content: string, temp: string, inode: Inode)
    | Chmod
    | Write(n: nat)
    | SyncFile
    | Close
    | Rename
    | SyncDirectory
    | GiveUp(removed: bool)
    | Unlink(name: string)

  function Seen(d: Disk): map<string, Inode> {
    if d.snapshots == [] then map[] else d.snapshots[|d.snapshots| - 1]
  }

  function Wanted(d: Disk): map<string, string> {
    if d.items == [] then map[] else d.items[|d.items| - 1]
  }

  /** The directory becomes `names`, and should hold `wanted`. */
  function Change(d: Disk, names: map<string, Inode>, wanted: map<string, string>): Disk {
    d.(snapshots := d.snapshots + [names], items := d.items + [wanted])
  }

  predicate Possible(d: Disk, s: Step) {
    match s
    case Create(path, content, temp, inode) =>
      d.stage.Idle? && IsItemName(path) && IsTempName(temp) && temp !in Seen(d) && inode !in d.files
    case Chmod => d.stage.Opened?
    case Write(n) => d.stage.Private? && n <= |d.content|
    case SyncFile => d.stage.Filled?
    case Close => d.stage.Flushed?
    case Rename => d.stage.Closed?
    case SyncDirectory => d.stage.Idle? || d.stage.Replaced?
    case GiveUp(removed) => !d.stage.Idle?
    case Unlink(name) => d.stage.Idle?
  }

  /** One system call. A write may be cut short; whatever failed, the writer
      gives up and tries to remove its temporary file, unless that has already
      taken the item's name. */
  function Next(d: Disk, s: Step): Disk {
    match s
    case Create(path, content, temp, inode) =>
      Change(d, Seen(d)[temp := inode], Wanted(d)).(
        files := d.files[inode := Content("", false)],
        stage := Opened, path := path, content := content, temp := temp, inode := inode)
    case Chmod => d.(stage := Private)
    case Write(n) =>
      if n <= |d.content| then
        d.(files := d.files[d.inode := Content(d.content[..n], false)],
           stage := if n == |d.content| then Filled else Short)
      else d
    case SyncFile =>
      if d.inode in d.files then
        d.(files := d.files[d.inode := Content(d.files[d.inode].bytes, true)], stage := Flushed)
      else d
    case Close => d.(stage := Closed)
    case Rename =>
      Change(d, (Seen(d) - {d.temp})[d.path := d.inode], Wanted(d)[d.path := d.content]).(stage := Replaced)
    case SyncDirectory =>
      d.(snapshots := [Seen(d)], items := [Wanted(d)], stage := Idle)
    case GiveUp(removed) =>
      if removed && !d.stage.Replaced? then Change(d, Seen(d) - {d.temp}, Wanted(d)).(stage := Idle)
      else d.(stage := Idle)
    case Unlink(name) =>
      Change(d, Seen(d) - {name}, Wanted(d) - {name})
  }

  // ------------------------------------------------------------------- crash

  /** After a crash the name may be what it was in the k-th of the snapshots,
      and a file that was not synced may hold anything. */
  predicate LeftAs(d: Disk, after: map<string, Entry>, name: string, k: nat)
    requires k < |d.snapshots|
  {
    if name in d.snapshots[k] then
      var inode := d.snapshots[k][name];
      && name in after && after[name].File?
      && (inode in d.files && d.files[inode].synced ==> after[name].content == d.files[inode].bytes)
    else name !in after
  }

  predicate MayBeLeft(d: Disk, after: map<string, Entry>, name: string) {
    exists k :: 0 <= k < |d.snapshots| && LeftAs(d, after, name, k)
  }

  /** `after` can be what a crash leaves of the directory: each of its names
      for itself may have gone back as far as the last sync. */
  ghost predicate CrashLeaves(d: Disk, after: map<string, Entry>) {
    forall name: string :: MayBeLeft(d, after, name)
  }

  /** The item files of a directory. */
  function Items(pending: map<string, Entry>): map<string, string> {
    map name | name in pending && IsItemName(name) && pending[name].File? :: pending[name].content
  }

  // --------------------------------------------------------------- invariant

  /** In the k-th snapshot the item names have the contents they should have,
      and those are on the disk. */
  predicate Right(d: Disk, k: nat)
    requires k < |d.snapshots| && k < |d.items|
  {
    && (forall name :: name in d.items[k] ==> IsItemName(name) && name in d.snapshots[k])
    && (forall name :: name in d.snapshots[k] && IsItemName(name) ==>
          && name in d.items[k] && d.snapshots[k][name] in d.files
          && d.files[d.snapshots[k][name]] == Content(d.items[k][name], true)
          && (!d.stage.Idle? && !d.stage.Replaced? ==> d.snapshots[k][name] != d.inode))
  }

  /** How far the write under way has come. */
  predicate Progress(d: Disk) {
    && (!d.stage.Idle? ==> IsItemName(d.path) && IsTempName(d.temp) && d.inode in d.files)
    && (d.stage.Filled? ==> d.files[d.inode].bytes == d.content)
    && (d.stage.Flushed? || d.stage.Closed? ==> d.files[d.inode] == Content(d.content, true))
  }

  predicate Sane(d: Disk) {
    && |d.snapshots| == |d.items| > 0
    && Progress(d)
    && forall k :: 0 <= k < |d.snapshots| ==> Right(d, k)
  }

  lemma StepProgress(d: Disk, s: Step)
    requires Progress(d) && Possible(d, s)
    ensures Progress(Next(d, s))
  {
    hide IsItemName, IsTempName, Seen, Wanted;
  }

  /** A snapshot that stays is as right as before. */
  lemma StepKeepsRight(d: Disk, s: Step, k: nat)
    requires Progress(d) && Possible(d, s) && !s.SyncDirectory?
    requires k < |d.snapshots| && k < |d.items| && Right(d, k)
    ensures k < |Next(d, s).snapshots| && k < |Next(d, s).items| && Right(Next(d, s), k)
  {
    hide IsItemName, IsTempName, Seen, Wanted;
  }

  /** The directory the programs see has the right items. */
  predicate SeenRight(d: Disk) {
    |d.snapshots| == |d.items| > 0 && Right(d, |d.items| - 1)
  }

  lemma RenameRight(d: Disk)
    requires Progress(d) && d.stage.Closed? && SeenRight(d)
    ensures SeenRight(Next(d, Rename))
  {
    TempIsNoItem(d.temp);
    hide IsItemName, IsTempName;
  }

  lemma TempRight(d: Disk, s: Step)
    requires Progress(d) && Possible(d, s) && SeenRight(d) && (s.Create? || s.GiveUp?)
    ensures SeenRight(Next(d, s))
  {
    if s.Create? { TempIsNoItem(s.temp); }
    if !d.stage.Idle? { TempIsNoItem(d.temp); }
    hide IsItemName, IsTempName;
  }

  lemma StepSeenRight(d: Disk, s: Step)
    requires Progress(d) && Possible(d, s) && SeenRight(d)
    ensures SeenRight(Next(d, s))
  {
    hide IsItemName, IsTempName;
    if s.Rename? {
      RenameRight(d);
    } else if s.Create? || s.GiveUp? {
      TempRight(d, s);
    }
  }

  lemma StepSane(d: Disk, s: Step)
    requires Sane(d) && Possible(d, s)
    ensures Sane(Next(d, s))
  {
    hide Progress, Right, IsItemName, IsTempName;
    var e := Next(d, s);
    StepProgress(d, s);
    StepSeenRight(d, s);
    forall k | 0 <= k < |e.snapshots| ensures Right(e, k) {
      if k < |e.snapshots| - 1 {
        StepKeepsRight(d, s, k);
      }
    }
  }

  function After(d: Disk, steps: seq<Step>): Disk {
    if steps == [] then d else Next(After(d, steps[..|steps| - 1]), steps[|steps| - 1])
  }

  predicate Run(d: Disk, steps: seq<Step>) {
    steps == [] || (Run(d, steps[..|steps| - 1]) && Possible(After(d, steps[..|steps| - 1]), steps[|steps| - 1]))
  }

  lemma {:induction false} RunSane(d: Disk, steps: seq<Step>)
    requires Sane(d) && Run(d, steps)
    ensures Sane(After(d, steps))
  {
    hide Sane, Next;
    if steps != [] {
      RunSane(d, steps[..|steps| - 1]);
      StepSane(After(d, steps[..|steps| - 1]), steps[|steps| - 1]);
    }
  }

  // ---------------------------------------------------------------- theorems

  lemma NameLeft(d: Disk, after: map<string, Entry>, name: string)
    requires Sane(d) && CrashLeaves(d, after) && IsItemName(name)
    ensures exists k :: 0 <= k < |d.items|
              && (name in Items(after) <==> name in d.items[k])
              && (name in Items(after) ==> Items(after)[name] == d.items[k][name])
  {
    hide IsItemName, IsTempName;
    assert MayBeLeft(d, after, name);
    var k :| 0 <= k < |d.snapshots| && LeftAs(d, after, name, k);
    assert Right(d, k);
  }

  /** The disk after a restart: all that is there is on it. */
  function Booted(found: map<string, Entry>): Disk {
    Disk(map name | name in found && found[name].File? :: Found(name) := Content(found[name].content, true),
         [map name | name in found && found[name].File? :: Found(name)],
         [Items(found)], Idle, "", "", "", Made(0))
  }

  /** Whatever a crash left is a good start for the next run. */
  lemma BootSane(found: map<string, Entry>)
    ensures Sane(Booted(found)) && Booted(found).items == [Items(found)]
  {
    hide IsItemName, IsTempName;
  }

  /** No item is ever torn: after any run of writes and removals, complete or
      given up, a crash leaves each item name either absent or with exactly the
      content some write was given for it, as it stood at a moment since the
      directory was last synced. */
  lemma NoTornItem(d: Disk, steps: seq<Step>, after: map<string, Entry>, name: string)
    requires Sane(d) && Run(d, steps) && CrashLeaves(After(d, steps), after) && IsItemName(name)
    ensures exists k :: 0 <= k < |After(d, steps).items|
              && (name in Items(after) <==> name in After(d, steps).items[k])
              && (name in Items(after) ==> Items(after)[name] == After(d, steps).items[k][name])
  {
    hide *;
    RunSane(d, steps);
    NameLeft(After(d, steps), after, name);
  }

  /** `e` is what one write of `content` to `path` has made of the idle disk `d`
      so far: no more than the old states of the directory, and the new one. */
  predicate Phase(e: Disk, d: Disk, path: string, content: string, renamed: bool) {
    && |e.items| > 0
    && (!e.stage.Idle? ==> e.path == path && e.content == content)
    && (e.stage.Replaced? ==> renamed)
    && (renamed ==> e.stage.Replaced? || e.stage.Idle?)
    && Wanted(e) == (if renamed then Wanted(d)[path := content] else Wanted(d))
    && forall k :: 0 <= k < |e.items| ==> e.items[k] in d.items || (renamed && e.items[k] == Wanted(d)[path := content])
  }

  /** Steps of the write itself, and no other. */
  predicate OneWrite(steps: seq<Step>) {
    forall s :: s in steps ==> !s.Create? && !s.Unlink?
  }

  lemma {:induction false} WritePhase(d: Disk, op: Step, steps: seq<Step>)
    requires Sane(d) && d.stage.Idle? && op.Create? && Possible(d, op)
    requires OneWrite(steps) && Run(Next(d, op), steps)
    ensures Phase(After(Next(d, op), steps), d, op.path, op.content, Rename in steps)
    ensures steps != [] && steps[|steps| - 1] == SyncDirectory ==> |After(Next(d, op), steps).items| == 1
  {
    hide IsItemName, IsTempName, Right, Progress;
    assert Wanted(d) in d.items;
    if steps != [] {
      var shorter, s := steps[..|steps| - 1], steps[|steps| - 1];
      assert steps == shorter + [s];
      WritePhase(d, op, shorter);
      StepPhase(After(Next(d, op), shorter), d, op.path, op.content, Rename in shorter, s);
    }
  }

  lemma StepPhase(e: Disk, d: Disk, path: string, content: string, renamed: bool, s: Step)
    requires Phase(e, d, path, content, renamed) && Possible(e, s) && !s.Create? && !s.Unlink?
    requires Wanted(d) in d.items
    ensures Phase(Next(e, s), d, path, content, renamed || s == Rename)
    ensures s == SyncDirectory ==> |Next(e, s).items| == 1
  {
    hide IsItemName, IsTempName;
  }

  lemma ItemNames(d: Disk)
    requires Sane(d)
    ensures forall k, name :: 0 <= k < |d.items| && name in d.items[k] ==> IsItemName(name)
  {
    hide IsItemName, IsTempName;
    forall k, name | 0 <= k < |d.items| && name in d.items[k] ensures IsItemName(name) {
      assert Right(d, k);
    }
  }

  lemma ItemNamed(pending: map<string, Entry>, name: string)
    ensures name in Items(pending) ==> IsItemName(name)
  {
  }

  /** The directory as the programs see it, as files. */
  function SeenFiles(d: Disk): map<string, Entry> {
    map name | name in Seen(d) :: File(if Seen(d)[name] in d.files then d.files[Seen(d)[name]].bytes else "")
  }

  /** The items of `after` but for `path` if `newHere`; all else as seen on
      `d`. */
  function Backdated(d: Disk, after: map<string, Entry>, path: string, newHere: bool): map<string, Entry> {
    (map name | name in Items(after) && !(newHere && name == path) :: File(Items(after)[name]))
    + (map name | name in SeenFiles(d) && (!IsItemName(name) || (newHere && name == path)) :: SeenFiles(d)[name])
  }

  lemma SeenMayBeLeft(d: Disk, before: map<string, Entry>, name: string)
    requires Sane(d)
    requires name in before <==> name in SeenFiles(d)
    requires name in before ==> before[name] == SeenFiles(d)[name]
    ensures MayBeLeft(d, before, name)
  {
    hide IsItemName, IsTempName, Right, Progress;
    assert LeftAs(d, before, name, |d.snapshots| - 1);
  }

  lemma ItemMayBeLeft(d: Disk, before: map<string, Entry>, name: string, k: nat)
    requires Sane(d) && IsItemName(name) && k < |d.items|
    requires name in before <==> name in d.items[k]
    requires name in before ==> before[name] == File(d.items[k][name])
    ensures MayBeLeft(d, before, name)
  {
    hide IsItemName, IsTempName;
    assert Right(d, k);
    assert LeftAs(d, before, name, k);
  }

  /** An item a crash leaves of `e` a crash may have left of `d`, unless it is
      the new one. */
  lemma OldItemLeft(e: Disk, d: Disk, after: map<string, Entry>, path: string, content: string, renamed: bool, name: string)
      returns (k: nat)
    requires Sane(e) && Sane(d) && CrashLeaves(e, after) && Phase(e, d, path, content, renamed) && IsItemName(name)
    requires !(renamed && name == path && name in Items(after) && Items(after)[name] == content)
    ensures k < |d.items|
    ensures name in Items(after) <==> name in d.items[k]
    ensures name in Items(after) ==> Items(after)[name] == d.items[k][name]
  {
    NameLeft(e, after, name);
    hide CrashLeaves, IsItemName, IsTempName, Items, Right, Progress;
    var i :| 0 <= i < |e.items| && (name in Items(after) <==> name in e.items[i])
             && (name in Items(after) ==> Items(after)[name] == e.items[i][name]);
    if e.items[i] in d.items {
      k :| 0 <= k < |d.items| && d.items[k] == e.items[i];
    } else {
      k := |d.items| - 1;
    }
  }

  lemma BackdatedItems(d: Disk, after: map<string, Entry>, path: string, newHere: bool)
    requires Sane(d)
    ensures newHere && IsItemName(path) && path in Items(after) ==>
              Items(Backdated(d, after, path, newHere))[path := Items(after)[path]] == Items(after)
    ensures !newHere ==> Items(Backdated(d, after, path, newHere)) == Items(after)
  {
    hide IsItemName, IsTempName, Sane;
  }

  lemma BackdatedMayBeLeft(e: Disk, d: Disk, after: map<string, Entry>, path: string, content: string, renamed: bool,
                           newHere: bool, name: string)
    requires Sane(e) && Sane(d) && CrashLeaves(e, after) && Phase(e, d, path, content, renamed) && IsItemName(path)
    requires newHere <==> renamed && path in Items(after) && Items(after)[path] == content
    ensures MayBeLeft(d, Backdated(d, after, path, newHere), name)
  {
    hide CrashLeaves, Phase, MayBeLeft, IsItemName, IsTempName, Sane, SeenFiles;
    var before := Backdated(d, after, path, newHere);
    ItemNamed(after, name);
    if !IsItemName(name) || (newHere && name == path) {
      SeenMayBeLeft(d, before, name);
    } else {
      var k := OldItemLeft(e, d, after, path, content, renamed, name);
      ItemMayBeLeft(d, before, name, k);
    }
  }

  /** What a crash may leave, with or without the new item. */
  ghost predicate OldOrNew(d: Disk, after: map<string, Entry>, path: string, content: string, renamed: bool) {
    exists before :: CrashLeaves(d, before)
      && (Items(after) == Items(before) || (renamed && Items(after) == Items(before)[path := content]))
  }

  lemma LeftOldOrNew(e: Disk, d: Disk, after: map<string, Entry>, path: string, content: string, renamed: bool)
    requires Sane(e) && Sane(d) && CrashLeaves(e, after) && Phase(e, d, path, content, renamed) && IsItemName(path)
    ensures OldOrNew(d, after, path, content, renamed)
  {
    var newHere := renamed && path in Items(after) && Items(after)[path] == content;
    var before := Backdated(d, after, path, newHere);
    forall name ensures MayBeLeft(d, before, name) {
      BackdatedMayBeLeft(e, d, after, path, content, renamed, newHere, name);
    }
    BackdatedItems(d, after, path, newHere);
    hide MayBeLeft, Items, Phase, Sane, Backdated, IsItemName;
    assert CrashLeaves(d, before);
  }

  /** If all states since the last sync wanted the same, that is what is left. */
  lemma SettledLeaves(d: Disk, after: map<string, Entry>)
    requires Sane(d) && CrashLeaves(d, after)
    requires forall k :: 0 <= k < |d.items| ==> d.items[k] == Wanted(d)
    ensures Items(after) == Wanted(d)
  {
    ItemNames(d);
    hide Sane, CrashLeaves, IsItemName, IsTempName;
    assert Wanted(d) == d.items[|d.items| - 1];
    forall name ensures (name in Items(after) <==> name in Wanted(d))
                        && (name in Wanted(d) ==> Items(after)[name] == Wanted(d)[name]) {
      ItemNamed(after, name);
      hide Items;
      if name in Items(after) || name in Wanted(d) {
        NameLeft(d, after, name);
      }
    }
  }

  /** Nothing but temporary files came and went since the last sync. */
  predicate Settled(d: Disk) {
    forall k :: 0 <= k < |d.items| ==> d.items[k] == Wanted(d)
  }

  /** A crash after any step of one write, on whatever disk the write began:
      what is left is what a crash could have left before the write, with or
      without the new item; without it if the crash came before the rename. Once
      the write has returned without an error what is left is the new items, and
      between synced writes, given up ones in between or not, it is exactly the
      old items or exactly the new ones. */
  lemma CrashAtomic(d: Disk, op: Step, steps: seq<Step>, after: map<string, Entry>)
    requires Sane(d) && d.stage.Idle? && op.Create? && Possible(d, op)
    requires OneWrite(steps) && Run(Next(d, op), steps)
    requires CrashLeaves(After(Next(d, op), steps), after)
    ensures OldOrNew(d, after, op.path, op.content, Rename in steps)
    ensures Rename in steps && steps[|steps| - 1] == SyncDirectory ==> Items(after) == Wanted(d)[op.path := op.content]
    ensures Settled(d) ==> Items(after) == Wanted(d) || (Rename in steps && Items(after) == Wanted(d)[op.path := op.content])
  {
    hide *;
    var e := After(Next(d, op), steps);
    PathIsItem(d, op);
    StepSane(d, op);
    RunSane(Next(d, op), steps);
    WritePhase(d, op, steps);
    LeftOldOrNew(e, d, after, op.path, op.content, Rename in steps);
    if Rename in steps && steps[|steps| - 1] == SyncDirectory {
      OneSnapshotSettled(e);
      SettledLeaves(e, after);
      PhaseWants(e, d, op.path, op.content);
    }
    if Settled(d) {
      OldOrNewSettled(d, after, op.path, op.content, Rename in steps);
    }
  }

  lemma OneSnapshotSettled(e: Disk)
    requires |e.items| == 1
    ensures forall k :: 0 <= k < |e.items| ==> e.items[k] == Wanted(e)
  {
  }

  lemma PhaseWants(e: Disk, d: Disk, path: string, content: string)
    requires Phase(e, d, path, content, true)
    ensures Wanted(e) == Wanted(d)[path := content]
  {
  }

  lemma OldOrNewSettled(d: Disk, after: map<string, Entry>, path: string, content: string, renamed: bool)
    requires Sane(d) && Settled(d) && OldOrNew(d, after, path, content, renamed)
    ensures Items(after) == Wanted(d) || (renamed && Items(after) == Wanted(d)[path := content])
  {
    hide Sane, CrashLeaves, Items, Wanted;
    var before :| CrashLeaves(d, before)
      && (Items(after) == Items(before) || (renamed && Items(after) == Items(before)[path := content]));
    SettledLeaves(d, before);
  }

  lemma PathIsItem(d: Disk, op: Step)
    requires op.Create? && Possible(d, op)
    ensures IsItemName(op.path)
  {
  }

  function FilesOf(items: map<string, string>): map<string, Entry> {
    map name | name in items :: File(items[name])
  }

  /** Only item files count in the queue. */
  lemma ViewOfItems(u: Setup, pending: map<string, Entry>)
    ensures View(u, pending) == View(u, FilesOf(Items(pending)))
  {
    var files := FilesOf(Items(pending));
    forall id ensures id in View(u, pending) <==> id in View(u, files)
              ensures id in View(u, pending) ==> View(u, pending)[id] == View(u, files)[id]
    {
      ViewAt(u, pending, id);
      ViewAt(u, files, id);
      hide View, HasSuffix;
      NonFileUnread(u, pending, id);
    }
  }

  lemma NonFileUnread(u: Setup, pending: map<string, Entry>, id: string)
    ensures FileName(id) in pending && !pending[FileName(id)].File? ==> ReadEnvelope(u, pending[FileName(id)]).None?
  {
  }

  /** So a crash in the middle of storing an item leaves a queue a crash could
      have left before, or that queue with the item; a temporary file left behind
      is no item. */
  lemma CrashedStore(u: Setup, d: Disk, op: Step, steps: seq<Step>, after: map<string, Entry>, id: string, item: Item)
    requires ValidSetup(u) && Storable(u, item) && op.Create? && op.path == FileName(id) && op.content == Encode(u, item)
    requires Sane(d) && d.stage.Idle? && Possible(d, op)
    requires OneWrite(steps) && Run(Next(d, op), steps)
    requires CrashLeaves(After(Next(d, op), steps), after)
    ensures exists before :: CrashLeaves(d, before)
              && (View(u, after) == View(u, before) || (Rename in steps && View(u, after) == View(u, before)[id := item]))
    ensures Rename in steps && steps[|steps| - 1] == SyncDirectory ==>
              View(u, after) == View(u, FilesOf(Wanted(d)))[id := item]
  {
    hide *;
    CrashAtomic(d, op, steps, after);
    ViewOfItems(u, after);
    if Rename in steps && steps[|steps| - 1] == SyncDirectory {
      ViewOfNew(u, Wanted(d), id, item);
    }
    var before := OldState(d, after, op.path, op.content, Rename in steps);
    ViewOfItems(u, before);
    if Items(after) != Items(before) {
      ViewOfNew(u, Items(before), id, item);
    }
  }

  lemma OldState(d: Disk, after: map<string, Entry>, path: string, content: string, renamed: bool)
      returns (before: map<string, Entry>)
    requires OldOrNew(d, after, path, content, renamed)
    ensures CrashLeaves(d, before)
    ensures Items(after) == Items(before) || (renamed && Items(after) == Items(before)[path := content])
  {
    hide CrashLeaves, Items;
    before :| CrashLeaves(d, before)
      && (Items(after) == Items(before) || (renamed && Items(after) == Items(before)[path := content]));
  }

  lemma ViewOfNew(u: Setup, items: map<string, string>, id: string, item: Item)
    requires ValidSetup(u) && Storable(u, item)
    ensures View(u, FilesOf(items[FileName(id) := Encode(u, item)])) == View(u, FilesOf(items))[id := item]
  {
    hide View, Encode, ReadEnvelope, FileName;
    WrittenReadsBack(u, item);
    assert FilesOf(items[FileName(id) := Encode(u, item)]) == FilesOf(items)[FileName(id) := File(Encode(u, item))];
    ViewOfPut(u, FilesOf(items), id, File(Encode(u, item)), item);
  }
}
