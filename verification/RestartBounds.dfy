/** What the bounds of the pending directory are worth after a power failure
    (internal/agent/probe_spool.go). */
module RestartBounds {
  import opened Text
  import opened Envelopes
  import opened Sums
  import opened SpoolModel
  import opened SpoolRuns
  import opened CrashRestart

  // --------------------------------------------------------------- ownership

  lemma TameOwned(u: Setup, s: Store)
    requires Tame(u, s)
    ensures AllOwned(s)
    ensures |BaseWeights(u, s.pending)| <= u.limits.maxPendingItems && Sum(BaseWeights(u, s.pending)) <= u.limits.maxPendingBytes
  {
  }

  /** At every moment of a run that began tame. */
  lemma TameAt(u: Setup, origin: Store, run: seq<Event>, j: nat)
    requires ValidSetup(u) && Sound(u, origin) && Tame(u, origin) && Legal(u, origin, run) && j <= |run|
    ensures Sound(u, At(u, origin, run, j)) && Tame(u, At(u, origin, run, j)) && AllOwned(At(u, origin, run, j))
  {
    hide Sound, Tame, Legal, Replay;
    LegalPrefix(u, origin, run, j);
    RunSound(u, origin, run[..j]);
    PendingBound(u, origin, run[..j]);
    TameOwned(u, At(u, origin, run, j));
  }

  lemma OwnedEntry(s: Store, name: string)
    requires AllOwned(s) && name in s.pending && IsItemName(name)
    ensures Owned(s, name)
  {
  }

  /** An item file that is left was an item at some moment since the sync, and
      its id is stored. */
  lemma LeftIsStored(c: Crash, name: string) returns (j: nat)
    requires CrashedRun(c) && Tame(c.u, c.origin) && name in c.pending && IsItemName(name)
    ensures c.kp <= j <= |c.run| && name in At(c.u, c.origin, c.run, j).pending && Owned(At(c.u, c.origin, c.run, j), name)
    ensures IdOf(name) in Final(c).ledger && InPending(c.pending, IdOf(name))
  {
    hide Sound, Tame, Legal, Replay, Unclaimed, AllOwned, QuarantineLeft;
    j :| c.kp <= j <= |c.run| && ItemAsAt(c.u, c.origin, c.run, c.pending, name, j);
    TameAt(c.u, c.origin, c.run, j);
    OwnedEntry(At(c.u, c.origin, c.run, j), name);
    Meanwhile(c.u, c.origin, c.run, j);
    BothBooks(c.u, At(c.u, c.origin, c.run, j), IdOf(name));
  }

  /** The restarted spool, too, holds nobody else's items. */
  lemma RestartedOwned(c: Crash)
    requires CrashedRun(c) && Tame(c.u, c.origin)
    ensures AllOwned(Restarted(c))
  {
    Meanwhile(c.u, c.origin, c.run, 0);
    hide Sound, Tame, Legal, Replay, CrashedRun, IsItemName, Restarted;
    RestartedBooks(c);
    forall name | name in c.pending && IsItemName(name) ensures Owned(Restarted(c), name) {
      var j := LeftIsStored(c, name);
      BothBooks(c.u, Final(c), IdOf(name));
      RestartedAt(c, IdOf(name));
    }
  }

  // ------------------------------------------------------------------- bounds

  /** How many items were stored by the changes from the k-th to the j-th. */
  function Stores(run: seq<Event>, k: nat, j: nat): nat
    requires k <= j <= |run|
    decreases j
  {
    if j == k then 0 else Stores(run, k, j - 1) + (if run[j - 1].Persist? then 1 else 0)
  }

  /** And how many bytes. */
  function StoredBytes(u: Setup, run: seq<Event>, k: nat, j: nat): nat
    requires k <= j <= |run|
    decreases j
  {
    if j == k then 0
    else StoredBytes(u, run, k, j - 1) + (if run[j - 1].Persist? then |Encode(u, run[j - 1].item)| else 0)
  }

  /** The names items had at any of these moments. */
  function NamesSince(u: Setup, origin: Store, run: seq<Event>, k: nat, j: nat): set<string>
    requires k <= j <= |run|
    decreases j
  {
    if j == k then BaseWeights(u, At(u, origin, run, k).pending).Keys
    else
      NamesSince(u, origin, run, k, j - 1)
      + (if run[j - 1].Persist? then {FileName(MakeId(run[j - 1].item.created, run[j - 1].random))} else {})
  }

  /** A change adds no item but the one it stores. */
  lemma OneStored(u: Setup, s: Store, e: Event, name: string)
    requires Enabled(u, s, e) && IsItemName(name) && name in Apply(u, s, e).pending
    ensures name in s.pending || (e.Persist? && name == FileName(MakeId(e.item.created, e.random)))
  {
    if e.WriteTemp? { TempIsNoItem(e.name); }
    hide HasSuffix, IsTempName, Encode, MakeId, Rewritten, Fits, ReadEnvelope, PendingWeights;
  }

  lemma {:induction false} NamedSince(u: Setup, origin: Store, run: seq<Event>, k: nat, i: nat, j: nat, name: string)
    requires Legal(u, origin, run) && k <= i <= j <= |run|
    requires IsItemName(name) && name in At(u, origin, run, i).pending
    ensures name in NamesSince(u, origin, run, k, j)
    decreases j
  {
    hide Enabled, Apply, Legal, IsItemName;
    if j == k {
      BaseWeightsOf(u, At(u, origin, run, k).pending, name);
    } else if i < j {
      NamedSince(u, origin, run, k, i, j - 1, name);
    } else {
      StepOf(u, origin, run, j - 1);
      OneStored(u, At(u, origin, run, j - 1), run[j - 1], name);
      if name in At(u, origin, run, j - 1).pending {
        NamedSince(u, origin, run, k, j - 1, j - 1, name);
      }
    }
  }

  lemma StepOf(u: Setup, origin: Store, run: seq<Event>, j: nat)
    requires Legal(u, origin, run) && j < |run|
    ensures Enabled(u, At(u, origin, run, j), run[j])
    ensures At(u, origin, run, j + 1) == Apply(u, At(u, origin, run, j), run[j])
  {
    LegalPrefix(u, origin, run, j + 1);
    assert run[..j + 1][..j] == run[..j];
    hide Enabled, Apply;
  }

  /** The base size of whatever file holds the item of this name. */
  function NameSize(u: Setup, s: Store, name: string): nat {
    if IsItemName(name) && IdOf(name) in s.births then BirthSize(u, s.births[IdOf(name)]) else 0
  }

  function NameSizes(u: Setup, s: Store, names: set<string>): map<string, nat> {
    map name | name in names :: NameSize(u, s, name)
  }

  lemma SizeAt(u: Setup, origin: Store, run: seq<Event>, j: nat, name: string)
    requires ValidSetup(u) && Sound(u, origin) && Tame(u, origin) && Legal(u, origin, run) && j <= |run|
    requires IsItemName(name) && name in At(u, origin, run, j).pending
    ensures BaseSize(u, At(u, origin, run, j).pending[name]) == NameSize(u, Replay(u, origin, run), name)
  {
    hide Sound, Tame, Legal, Replay, AllOwned, Holds, BaseSize, BirthSize;
    TameAt(u, origin, run, j);
    var s := At(u, origin, run, j);
    OwnedEntry(s, name);
    OwnedSize(u, s, name);
    HeldSize(u, s.births[IdOf(name)], s.pending[name]);
    Meanwhile(u, origin, run, j);
    BothBooks(u, s, IdOf(name));
  }

  lemma SizesAtSync(u: Setup, origin: Store, run: seq<Event>, k: nat)
    requires ValidSetup(u) && Sound(u, origin) && Tame(u, origin) && Legal(u, origin, run) && k <= |run|
    ensures var keys := BaseWeights(u, At(u, origin, run, k).pending).Keys;
            NameSizes(u, Replay(u, origin, run), keys) == BaseWeights(u, At(u, origin, run, k).pending)
  {
    hide Sound, Tame, Legal, Replay, NameSize, BaseWeights;
    var pending := At(u, origin, run, k).pending;
    forall name | name in BaseWeights(u, pending)
      ensures NameSize(u, Replay(u, origin, run), name) == BaseWeights(u, pending)[name]
    {
      BaseWeightsOf(u, pending, name);
      SizeAt(u, origin, run, k, name);
    }
  }

  /** A newly stored item is no larger than its file. */
  lemma StoredSize(u: Setup, origin: Store, run: seq<Event>, j: nat)
    requires ValidSetup(u) && Sound(u, origin) && Tame(u, origin) && Legal(u, origin, run) && j < |run| && run[j].Persist?
    ensures var name := FileName(MakeId(run[j].item.created, run[j].random));
            NameSize(u, Replay(u, origin, run), name) <= |Encode(u, run[j].item)|
  {
    hide Sound, Tame, Legal, Replay, NameSize, BaseSize, Encode, FileName, IsItemName, MakeId;
    StepOf(u, origin, run, j);
    NewItemBase(u, run[j].item);
    var name := FileName(MakeId(run[j].item.created, run[j].random));
    SizeAt(u, origin, run, j + 1, name);
  }

  lemma NameSizesAdd(u: Setup, s: Store, names: set<string>, name: string)
    ensures Sum(NameSizes(u, s, names + {name})) <= Sum(NameSizes(u, s, names)) + NameSize(u, s, name)
  {
    hide NameSize;
    var w := NameSizes(u, s, names);
    if name in names {
      assert names + {name} == names;
    } else {
      assert NameSizes(u, s, names + {name}) == w[name := NameSize(u, s, name)];
      SumPut(w, name, NameSize(u, s, name));
    }
  }

  lemma SizesAtLast(u: Setup, origin: Store, run: seq<Event>, k: nat)
    requires ValidSetup(u) && Sound(u, origin) && Tame(u, origin) && Legal(u, origin, run) && k <= |run|
    ensures |NamesSince(u, origin, run, k, k)| <= u.limits.maxPendingItems
    ensures Sum(NameSizes(u, Replay(u, origin, run), NamesSince(u, origin, run, k, k))) <= u.limits.maxPendingBytes
  {
    TameAt(u, origin, run, k);
    TameOwned(u, At(u, origin, run, k));
    SizesAtSync(u, origin, run, k);
    hide Sound, Tame, Legal, At, Replay, NameSizes, BaseWeights, Sum, AllOwned;
    var w := BaseWeights(u, At(u, origin, run, k).pending);
    assert |w.Keys| == |w|;
  }

  /** The names and bytes one more change can add. */
  lemma OneMoreSince(u: Setup, origin: Store, run: seq<Event>, k: nat, j: nat)
    requires k <= j < |run|
    ensures var name := if run[j].Persist? then FileName(MakeId(run[j].item.created, run[j].random)) else "";
            && NamesSince(u, origin, run, k, j + 1) == NamesSince(u, origin, run, k, j) + (if run[j].Persist? then {name} else {})
            && Stores(run, k, j + 1) == Stores(run, k, j) + (if run[j].Persist? then 1 else 0)
            && StoredBytes(u, run, k, j + 1)
               == StoredBytes(u, run, k, j) + (if run[j].Persist? then |Encode(u, run[j].item)| else 0)
  {
    hide Encode, MakeId, FileName, BaseWeights, At;
  }

  lemma {:induction false} SizesSince(u: Setup, origin: Store, run: seq<Event>, k: nat, j: nat)
    requires ValidSetup(u) && Sound(u, origin) && Tame(u, origin) && Legal(u, origin, run) && k <= j <= |run|
    ensures |NamesSince(u, origin, run, k, j)| <= u.limits.maxPendingItems + Stores(run, k, j)
    ensures Sum(NameSizes(u, Replay(u, origin, run), NamesSince(u, origin, run, k, j)))
            <= u.limits.maxPendingBytes + StoredBytes(u, run, k, j)
    decreases j
  {
    hide *;
    if j == k {
      SizesAtLast(u, origin, run, k);
    } else {
      SizesSince(u, origin, run, k, j - 1);
      OneMoreSince(u, origin, run, k, j - 1);
      var names := NamesSince(u, origin, run, k, j - 1);
      if run[j - 1].Persist? {
        var name := FileName(MakeId(run[j - 1].item.created, run[j - 1].random));
        StoredSize(u, origin, run, j - 1);
        NameSizesAdd(u, Replay(u, origin, run), names, name);
        assert |names + {name}| <= |names| + 1;
      } else {
        assert names + {} == names;
      }
    }
  }

  /** What is left is among these names, with these sizes. */
  lemma LeftSizes(c: Crash, name: string)
    requires CrashedRun(c) && Tame(c.u, c.origin) && name in BaseWeights(c.u, c.pending)
    ensures name in NamesSince(c.u, c.origin, c.run, c.kp, |c.run|)
    ensures BaseWeights(c.u, c.pending)[name] == NameSize(c.u, Final(c), name)
    ensures c.pending[name].File? && Size(c.pending[name]) <= BaseWeights(c.u, c.pending)[name] + 27
  {
    hide Sound, Tame, Legal, Replay, Unclaimed, PendingLeft, QuarantineLeft, BaseWeights, BaseSize, BirthSize, Holds, NamesSince;
    BaseWeightsOf(c.u, c.pending, name);
    var j := LeftIsStored(c, name);
    NamedSince(c.u, c.origin, c.run, c.kp, j, |c.run|, name);
    var i := LeftItemHolds(c, IdOf(name));
    HeldSize(c.u, Final(c).births[IdOf(name)], c.pending[name]);
  }

  lemma LeftWeights(c: Crash)
    requires CrashedRun(c) && Tame(c.u, c.origin)
    ensures PendingWeights(c.pending).Keys == BaseWeights(c.u, c.pending).Keys
    ensures Sum(PendingWeights(c.pending)) <= Sum(BaseWeights(c.u, c.pending)) + 27 * |PendingWeights(c.pending)|
  {
    hide CrashedRun, Tame, BaseSize, HasSuffix, Sum;
    forall name | name in BaseWeights(c.u, c.pending)
      ensures name in PendingWeights(c.pending) && PendingWeights(c.pending)[name] <= BaseWeights(c.u, c.pending)[name] + 27
    {
      LeftSizes(c, name);
    }
    assert PendingWeights(c.pending).Keys == BaseWeights(c.u, c.pending).Keys;
    SumSlack(PendingWeights(c.pending), BaseWeights(c.u, c.pending));
  }

  lemma LeftBase(c: Crash)
    requires CrashedRun(c) && Tame(c.u, c.origin)
    ensures |BaseWeights(c.u, c.pending)| <= c.u.limits.maxPendingItems + Stores(c.run, c.kp, |c.run|)
    ensures Sum(BaseWeights(c.u, c.pending)) <= c.u.limits.maxPendingBytes + StoredBytes(c.u, c.run, c.kp, |c.run|)
  {
    SyncedWithin(c);
    FinalIs(c);
    hide *;
    var names := NamesSince(c.u, c.origin, c.run, c.kp, |c.run|);
    var left, all := BaseWeights(c.u, c.pending), NameSizes(c.u, Final(c), names);
    SizesSince(c.u, c.origin, c.run, c.kp, |c.run|);
    forall name | name in left ensures name in names && name in all && left[name] <= all[name] {
      LeftSizes(c, name);
      NameSizesAt(c.u, Final(c), names, name);
    }
    SumMonotone(left, all);
    SubsetSize(left.Keys, names);
    assert |left| == |left.Keys|;
  }

  /** After a power failure removals that were not synced can be undone. The
      pending directory is then within its limits, digits apart, and as many
      items and bytes more as were stored since it was last synced. */
  lemma RestartBound(c: Crash)
    requires CrashedRun(c) && Tame(c.u, c.origin)
    ensures |PendingWeights(c.pending)| <= c.u.limits.maxPendingItems + Stores(c.run, c.kp, |c.run|)
    ensures Sum(PendingWeights(c.pending))
            <= c.u.limits.maxPendingBytes + StoredBytes(c.u, c.run, c.kp, |c.run|) + 27 * |PendingWeights(c.pending)|
  {
    LeftWeights(c);
    LeftBase(c);
    hide *;
    assert |PendingWeights(c.pending)| == |PendingWeights(c.pending).Keys|;
    assert |BaseWeights(c.u, c.pending)| == |BaseWeights(c.u, c.pending).Keys|;
  }

  lemma NameSizesAt(u: Setup, s: Store, names: set<string>, name: string)
    requires name in names
    ensures name in NameSizes(u, s, names) && NameSizes(u, s, names)[name] == NameSize(u, s, name)
  {
  }

  /** With nothing stored since the sync the spool is tame again. */
  lemma RestartedTame(c: Crash)
    requires CrashedRun(c) && Tame(c.u, c.origin) && Stores(c.run, c.kp, |c.run|) == 0
    ensures Tame(c.u, Restarted(c))
  {
    RestartedOwned(c);
    Meanwhile(c.u, c.origin, c.run, 0);
    RestartedBooks(c);
    LeftBase(c);
    NoStores(c.u, c.run, c.kp, |c.run|);
    hide Sound, CrashedRun, Restarted, AllOwned, BaseWeights, Sum;
  }

  lemma {:induction false} NoStores(u: Setup, run: seq<Event>, k: nat, j: nat)
    requires k <= j <= |run| && Stores(run, k, j) == 0
    ensures StoredBytes(u, run, k, j) == 0
    decreases j
  {
    if j > k { NoStores(u, run, k, j - 1); }
  }
}
