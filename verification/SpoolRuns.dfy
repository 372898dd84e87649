/** What holds over every run of the spool's file changes, whatever they are
    and wherever the process stops. */
module SpoolRuns {
  import opened Text
  import opened Envelopes
  import opened Sums
  import opened SpoolModel

  // -------------------------------------------------------------------- runs

  function Replay(u: Setup, origin: Store, run: seq<Event>): Store {
    if run == [] then origin
    else Apply(u, Replay(u, origin, run[..|run| - 1]), run[|run| - 1])
  }

  /** Every change of the run was possible when it was made. */
  ghost predicate Legal(u: Setup, origin: Store, run: seq<Event>) {
    run == []
    || (Legal(u, origin, run[..|run| - 1]) && Enabled(u, Replay(u, origin, run[..|run| - 1]), run[|run| - 1]))
  }

  lemma {:induction false} LegalPrefix(u: Setup, origin: Store, run: seq<Event>, k: nat)
    requires Legal(u, origin, run) && k <= |run|
    ensures Legal(u, origin, run[..k])
  {
    if k < |run| {
      LegalPrefix(u, origin, run[..|run| - 1], k);
      assert run[..|run| - 1][..k] == run[..k];
    } else {
      assert run[..k] == run;
    }
  }

  lemma {:induction false} RunSound(u: Setup, origin: Store, run: seq<Event>)
    requires ValidSetup(u) && Sound(u, origin) && Legal(u, origin, run)
    ensures Sound(u, Replay(u, origin, run))
  {
    hide Sound, Enabled, Apply;
    if run != [] {
      RunSound(u, origin, run[..|run| - 1]);
      StepSound(u, Replay(u, origin, run[..|run| - 1]), run[|run| - 1]);
    }
  }

  // ------------------------------------------------------------------ ledger

  /** A fate never goes back: an item leaves the queue once, and what left the
      queue can at most be evicted from the quarantine. */
  predicate Advances(before: Fate, after: Fate) {
    before == after || before.Pending? || (before.Quarantined? && after.Evicted?)
  }

  /** What was stored stays known, and its fate only advances. */
  ghost predicate Later(s: Store, t: Store) {
    forall id :: id in s.ledger && id in s.births ==>
      id in t.ledger && id in t.births && t.births[id] == s.births[id] && Advances(s.ledger[id], t.ledger[id])
  }

  /** Only one fate has changed, and that one forward. */
  lemma OneFate(s: Store, t: Store, id: string)
    requires forall x :: x in s.births ==> x in t.births && t.births[x] == s.births[x]
    requires forall x :: x in s.ledger && x != id ==> x in t.ledger && t.ledger[x] == s.ledger[x]
    requires id in s.ledger ==> id in t.ledger && Advances(s.ledger[id], t.ledger[id])
    ensures Later(s, t)
  {
  }

  lemma StepLater(u: Setup, s: Store, e: Event)
    requires Sound(u, s) && Enabled(u, s, e)
    ensures Later(s, Apply(u, s, e))
  {
    hide Later, Sound, ReadEnvelope, Encode, Rewritten, LastItem, FateAfter, HasSuffix, Fits, PendingWeights, PastTtl, MakeId;
    var t := Apply(u, s, e);
    match e
    case WriteTemp(_, _) => OneFate(s, t, "");
    case Persist(_, random, item) =>
      SameBooks(u, s);
      OneFate(s, t, MakeId(item.created, random));
    case Rewrite(_, _, _, _) => OneFate(s, t, "");
    case Remove(name, _) => OneFate(s, t, if Owned(s, name) then IdOf(name) else "");
    case Move(name, _) => OneFate(s, t, if Owned(s, name) then IdOf(name) else "");
    case Evict(file) =>
      FileIsSound(u, s, file);
      OneFate(s, t, if IsItemName(Base(file)) then IdOf(Base(file)) else "");
  }

  lemma SameBooks(u: Setup, s: Store)
    requires Sound(u, s)
    ensures s.births.Keys == s.ledger.Keys
  {
  }

  lemma FileIsSound(u: Setup, s: Store, file: string)
    requires Sound(u, s) && file in s.quarantine
    ensures SoundFile(s, file)
  {
  }

  /** Along any run, from any point on, every item's creation time and body stay
      what they were and its fate only advances. */
  lemma {:induction false} RunLater(u: Setup, origin: Store, run: seq<Event>, k: nat)
    requires ValidSetup(u) && Sound(u, origin) && Legal(u, origin, run) && k <= |run|
    ensures Later(Replay(u, origin, run[..k]), Replay(u, origin, run))
  {
    hide Sound, Enabled, Apply;
    if k < |run| {
      var shorter := run[..|run| - 1];
      RunLater(u, origin, shorter, k);
      assert shorter[..k] == run[..k];
      RunSound(u, origin, shorter);
      StepLater(u, Replay(u, origin, shorter), run[|run| - 1]);
    } else {
      assert run[..k] == run;
    }
  }

  /** The ledger is exact in every state of every run: a stored item is a
      pending file with its own body, or a quarantine file with the exact bytes
      it was taken out with, or in neither directory because it was
      acknowledged, was past its time to live, was too large for the
      quarantine, or was evicted from it. */
  lemma LedgerExact(u: Setup, origin: Store, run: seq<Event>, id: string)
    requires ValidSetup(u) && Sound(u, origin) && Legal(u, origin, run)
    requires id in Replay(u, origin, run).ledger
    ensures var s := Replay(u, origin, run);
            && id in s.births
            && var b, fate, view := s.births[id], s.ledger[id], View(u, s.pending);
            && (FileName(id) in s.pending <==> fate.Pending?)
            && (fate.Pending? ==> id in view && view[id].body == b.body && view[id].created == b.created)
            && (forall file :: file in s.quarantine && Base(file) == FileName(id) ==> fate.Quarantined? && fate.file == file)
            && (fate.Quarantined? ==>
                  && fate.file in s.quarantine && Base(fate.file) == FileName(id)
                  && s.quarantine[fate.file] == File(Encode(u, fate.last))
                  && fate.last.body == b.body && fate.last.created == b.created)
            && (fate.Expired? ==> PastTtl(u, b.created, fate.at))
            && (fate.Dropped? ==> fate.last.body == b.body && |Encode(u, fate.last)| > u.limits.maxQuarantineBytes)
  {
    RunSound(u, origin, run);
    var s := Replay(u, origin, run);
    assert SoundId(u, s, id);
    IdOfFileName(id);
    if s.ledger[id].Pending? {
      ViewHas(u, s.pending, id);
    }
    forall file | file in s.quarantine && Base(file) == FileName(id)
      ensures s.ledger[id].Quarantined? && s.ledger[id].file == file
    {
      assert SoundFile(s, file);
    }
  }

  lemma ViewHas(u: Setup, pending: map<string, Entry>, id: string)
    requires FileName(id) in pending && ReadEnvelope(u, pending[FileName(id)]).Some?
    ensures id in View(u, pending)
    ensures View(u, pending)[id] == ItemOf(ReadEnvelope(u, pending[FileName(id)]).value)
  {
    IdOfFileName(id);
  }

  /** While an item is pending its creation time and its body never change, so
      every time it is sent the same bytes are sent. */
  lemma ResendIdentical(u: Setup, origin: Store, run: seq<Event>, j: nat, k: nat, id: string)
    requires ValidSetup(u) && Sound(u, origin) && Legal(u, origin, run) && j <= k <= |run|
    requires var s, t := Replay(u, origin, run[..j]), Replay(u, origin, run[..k]);
             id in s.ledger && s.ledger[id].Pending? && id in t.ledger && t.ledger[id].Pending?
    ensures var s, t := View(u, Replay(u, origin, run[..j]).pending), View(u, Replay(u, origin, run[..k]).pending);
            id in s && id in t && s[id].body == t[id].body && s[id].created == t[id].created
  {
    hide Sound, Legal, Replay, View, Enabled, Apply, HasSuffix;
    LegalPrefix(u, origin, run, k);
    assert run[..k][..j] == run[..j];
    LegalPrefix(u, origin, run, j);
    RunLater(u, origin, run[..k], j);
    LedgerExact(u, origin, run[..j], id);
    LedgerExact(u, origin, run[..k], id);
  }

  /** An item can only be acknowledged by removing its own file for that
      reason. */
  lemma {:induction false} AckedByAck(u: Setup, origin: Store, run: seq<Event>, id: string)
    requires ValidSetup(u) && Sound(u, origin) && Legal(u, origin, run)
    requires id in Replay(u, origin, run).ledger && Replay(u, origin, run).ledger[id].Acked?
    ensures (id in origin.ledger && origin.ledger[id].Acked?) || Remove(FileName(id), ByAck) in run
  {
    if run != [] {
      var shorter, e := run[..|run| - 1], run[|run| - 1];
      var s := Replay(u, origin, shorter);
      if id in s.ledger && s.ledger[id].Acked? {
        AckedByAck(u, origin, shorter, id);
      } else {
        assert Enabled(u, s, e);
        assert e == Remove(FileName(id), ByAck);
      }
    }
  }

  /** Why an item is no longer pending, by the change that took its file. */
  predicate FateSays(u: Setup, s: Store, e: Event, id: string, fate: Fate)
    requires id in s.births
  {
    if e.Remove? && e.name == FileName(id) && FileName(id) in s.pending then
      match e.why
      case ByAck => fate == Acked
      case ByAge(now) => fate == Expired(now) && now >= s.births[id].created + u.limits.ttl
      case ByOversize => fate.Dropped? && Size(s.pending[FileName(id)]) > u.limits.maxQuarantineBytes
      case ByClearing => false
    else if e.Move? && e.name == FileName(id) then
      fate.Quarantined? && fate.file == FileName(id) + ("." + CleanReason(e.reason))
    else fate.Pending?
  }

  lemma RemovalSays(u: Setup, s: Store, e: Event, id: string)
    requires Sound(u, s) && Enabled(u, s, e) && id in s.ledger && s.ledger[id].Pending? && e.Remove?
    ensures id in Apply(u, s, e).ledger && FateSays(u, s, e, id, Apply(u, s, e).ledger[id])
  {
    assert SoundId(u, s, id);
    IdOfFileName(id);
    NoTempItem(id);
    hide HasSuffix, IsTempName, Encode, MakeId, PendingWeights, Base, LastItem, ReadEnvelope;
    HeldCreated(u, s.births[id], s.pending[FileName(id)]);
  }

  lemma HeldCreated(u: Setup, b: Birth, entry: Entry)
    requires Holds(u, b, entry)
    ensures entry.File? && ReadEnvelope(u, entry).Some? && ReadEnvelope(u, entry).value.created == b.created
  {
  }

  lemma MoveSays(u: Setup, s: Store, e: Event, id: string)
    requires Sound(u, s) && Enabled(u, s, e) && id in s.ledger && s.ledger[id].Pending? && e.Move?
    ensures id in Apply(u, s, e).ledger && FateSays(u, s, e, id, Apply(u, s, e).ledger[id])
  {
    assert SoundId(u, s, id);
    IdOfFileName(id);
    hide HasSuffix, Encode, MakeId, PendingWeights, Base, LastItem, ReadEnvelope, Fits, CleanReason;
  }

  lemma OtherSays(u: Setup, s: Store, e: Event, id: string)
    requires Sound(u, s) && Enabled(u, s, e) && id in s.ledger && s.ledger[id].Pending? && !e.Remove? && !e.Move?
    ensures id in Apply(u, s, e).ledger && FateSays(u, s, e, id, Apply(u, s, e).ledger[id])
  {
    if e.Evict? { assert SoundFile(s, e.file); }
    assert SoundId(u, s, id);
    hide HasSuffix, IsTempName, Encode, MakeId, PendingWeights, Base, LastItem, ReadEnvelope, Fits, Rewritten, Storable, Holds;
  }

  /** A pending item's fate changes with its own file and with nothing else, and
      says why the file went. */
  lemma FateHasCause(u: Setup, s: Store, e: Event, id: string)
    requires Sound(u, s) && Enabled(u, s, e) && id in s.ledger && s.ledger[id].Pending?
    ensures id in Apply(u, s, e).ledger && FateSays(u, s, e, id, Apply(u, s, e).ledger[id])
  {
    hide *;
    BooksHave(u, s);
    if e.Remove? {
      RemovalSays(u, s, e, id);
    } else if e.Move? {
      MoveSays(u, s, e, id);
    } else {
      OtherSays(u, s, e, id);
    }
  }

  lemma BooksHave(u: Setup, s: Store)
    requires Sound(u, s)
    ensures s.ledger.Keys == s.births.Keys
  {
  }

  lemma NoTempItem(id: string)
    ensures !IsTempName(FileName(id))
  {
    if IsTempName(FileName(id)) { TempIsNoItem(FileName(id)); }
  }

  // ------------------------------------------------------------------- order

  /** Among the stored items the order of file names, which decides what is
      sent next, is the order of creation, and for equal times that of the
      random digits. */
  lemma NameOrderIsAgeOrder(u: Setup, s: Store, a: string, b: string)
    requires Sound(u, s) && a in s.ledger && b in s.ledger
    ensures var x, y := s.births[a], s.births[b];
            Less(FileName(a), FileName(b)) <==>
            x.created < y.created || (x.created == y.created && Less(x.random, y.random))
  {
    assert SoundId(u, s, a) && SoundId(u, s, b);
    IdOrder(s.births[a], s.births[b]);
  }

  lemma IdOrder(x: Birth, y: Birth)
    requires 0 < x.created <= MAX_INT64 && 0 < y.created <= MAX_INT64
    requires IsRandom(x.random) && IsRandom(y.random)
    ensures Less(FileName(MakeId(x.created, x.random)), FileName(MakeId(y.created, y.random))) <==>
            x.created < y.created || (x.created == y.created && Less(x.random, y.random))
  {
    assert Pow10(20) == 100_000_000_000_000_000_000 by { assert Pow10(10) == 10_000_000_000; }
    hide Less, Fixed, Pow10;
    var m, n := Fixed(x.created, ID_DIGITS), Fixed(y.created, ID_DIGITS);
    var p, q := "-" + x.random, "-" + y.random;
    FixedOrder(x.created, y.created, ID_DIGITS);
    LessIrreflexive(ITEM_SUFFIX);
    LessBlocks(m + p, n + q, ITEM_SUFFIX, ITEM_SUFFIX);
    LessBlocks(m, n, p, q);
    LessIrreflexive("-");
    LessBlocks("-", "-", x.random, y.random);
  }

  // ----------------------------------------------------------- pending bounds

  /** The size of an item without its retry data: both numbers as one digit. */
  function BaseSize(u: Setup, entry: Entry): nat {
    var read := ReadEnvelope(u, entry);
    if read.Some? then |Render(read.value.(attempt := 0, nextAt := 0))| else 0
  }

  function BaseWeights(u: Setup, pending: map<string, Entry>): map<string, nat> {
    map name | name in pending && IsItemName(name) :: BaseSize(u, pending[name])
  }

  lemma BaseWeightsPut(u: Setup, pending: map<string, Entry>, name: string, entry: Entry)
    ensures BaseWeights(u, pending[name := entry])
            == if IsItemName(name) then BaseWeights(u, pending)[name := BaseSize(u, entry)]
               else BaseWeights(u, pending)
  {
    hide BaseSize, HasSuffix;
  }

  lemma BaseWeightsDrop(u: Setup, pending: map<string, Entry>, name: string)
    ensures BaseWeights(u, pending - {name}) == BaseWeights(u, pending) - {name}
  {
    hide BaseSize, HasSuffix;
  }

  lemma BaseWeightsOf(u: Setup, pending: map<string, Entry>, name: string)
    ensures name in BaseWeights(u, pending) <==> name in pending && IsItemName(name)
    ensures name in BaseWeights(u, pending) ==> BaseWeights(u, pending)[name] == BaseSize(u, pending[name])
  {
  }

  /** Nobody but the spool stores items, and their base sizes are in bounds. */
  ghost predicate Tame(u: Setup, s: Store) {
    && AllOwned(s)
    && |BaseWeights(u, s.pending)| <= u.limits.maxPendingItems
    && Sum(BaseWeights(u, s.pending)) <= u.limits.maxPendingBytes
  }

  /** The size of an item of this birth without its retry data. */
  function BirthSize(u: Setup, b: Birth): nat {
    |Render(Envelope(SCHEMA_VERSION, b.created, 0, 0, u.codec.checksum(b.body), b.body))|
  }

  /** A file that holds what was stored has the size its birth and its digits
      make. */
  lemma HeldSize(u: Setup, b: Birth, entry: Entry)
    requires ValidSetup(u) && Holds(u, b, entry)
    ensures entry.File? && ReadEnvelope(u, entry).Some? && BaseSize(u, entry) == BirthSize(u, b)
    ensures var e := ReadEnvelope(u, entry).value;
            && u.codec.compact(e.batch) == e.batch
            && Size(entry) == BaseSize(u, entry) - 2 + |Number(e.attempt)| + |Number(e.nextAt)|
    ensures BaseSize(u, entry) <= Size(entry) <= BaseSize(u, entry) + 27
  {
    var e := ReadEnvelope(u, entry).value;
    WrittenReadsBack(u, ItemOf(e));
    assert Seal(u, ItemOf(e)) == e;
    RenderLength(e, 0, 0);
    RetryDigits(e.attempt, e.nextAt);
  }

  /** An owned file is an item of the size its base and its digits make. */
  lemma OwnedSize(u: Setup, s: Store, name: string)
    requires ValidSetup(u) && Sound(u, s) && Owned(s, name) && name in s.pending
    ensures IdOf(name) in s.births && Holds(u, s.births[IdOf(name)], s.pending[name])
    ensures s.pending[name].File? && ReadEnvelope(u, s.pending[name]).Some?
    ensures var e := ReadEnvelope(u, s.pending[name]).value;
            && u.codec.compact(e.batch) == e.batch
            && Size(s.pending[name]) == BaseSize(u, s.pending[name]) - 2 + |Number(e.attempt)| + |Number(e.nextAt)|
    ensures BaseSize(u, s.pending[name]) <= Size(s.pending[name]) <= BaseSize(u, s.pending[name]) + 27
  {
    assert SoundId(u, s, IdOf(name));
    HeldSize(u, s.births[IdOf(name)], s.pending[name]);
  }

  lemma EmptyTame(u: Setup)
    requires ValidLimits(u.limits)
    ensures Tame(u, Empty)
  {
    assert BaseWeights(u, map[]) == map[];
  }

  /** In a tame state the usual measure of the directory, which the capacity
      check uses, differs from the base measure by the retry digits only. */
  lemma TameUsage(u: Setup, s: Store)
    requires ValidSetup(u) && Sound(u, s) && Tame(u, s)
    ensures PendingWeights(s.pending).Keys == BaseWeights(u, s.pending).Keys
    ensures Sum(BaseWeights(u, s.pending)) <= Sum(PendingWeights(s.pending))
    ensures Sum(PendingWeights(s.pending)) <= Sum(BaseWeights(u, s.pending)) + 27 * |PendingWeights(s.pending)|
    ensures |PendingWeights(s.pending)| == |BaseWeights(u, s.pending)|
  {
    hide Sound, BaseSize;
    var w, b := PendingWeights(s.pending), BaseWeights(u, s.pending);
    forall name | name in b ensures name in w && b[name] <= w[name] <= b[name] + 27 {
      OwnedSize(u, s, name);
    }
    assert w.Keys == b.Keys;
    assert |w| == |w.Keys| && |b| == |b.Keys|;
    SumMonotone(b, w);
    SumSlack(w, b);
  }

  lemma NewItemBase(u: Setup, item: Item)
    requires ValidSetup(u) && Storable(u, item)
    ensures BaseSize(u, File(Encode(u, item))) <= |Encode(u, item)|
  {
    WrittenReadsBack(u, item);
    RenderLength(Seal(u, item), 0, 0);
    RetryDigits(item.attempt, item.nextAt);
  }

  lemma PersistTame(u: Setup, s: Store, e: Event)
    requires ValidSetup(u) && Sound(u, s) && Tame(u, s) && e.Persist? && Enabled(u, s, e)
    ensures Tame(u, Apply(u, s, e))
  {
    hide Sound, BaseSize, BaseWeights, Encode, MakeId, HasSuffix, PendingWeights, Sum;
    var t := Apply(u, s, e);
    var name := FileName(MakeId(e.item.created, e.random));
    TempIsNoItem(e.temp);
    IdOfFileName(MakeId(e.item.created, e.random));
    TameUsage(u, s);
    NewItemBase(u, e.item);
    var b := BaseWeights(u, s.pending);
    BaseWeightsDrop(u, s.pending, e.temp);
    BaseWeightsOf(u, s.pending, e.temp);
    assert b - {e.temp} == b;
    BaseWeightsPut(u, s.pending - {e.temp}, name, File(Encode(u, e.item)));
    BaseWeightsOf(u, s.pending, name);
    SumPut(b, name, BaseSize(u, File(Encode(u, e.item))));
  }

  lemma BaseWeightsReplace(u: Setup, pending: map<string, Entry>, temp: string, name: string, entry: Entry)
    requires IsTempName(temp) && IsItemName(name) && name in pending
    requires BaseSize(u, entry) == BaseSize(u, pending[name])
    ensures BaseWeights(u, (pending - {temp})[name := entry]) == BaseWeights(u, pending)
  {
    TempIsNoItem(temp);
    hide BaseSize, BaseWeights, HasSuffix;
    var b := BaseWeights(u, pending);
    BaseWeightsDrop(u, pending, temp);
    BaseWeightsOf(u, pending, temp);
    BaseWeightsOf(u, pending, name);
    assert b - {temp} == b;
    BaseWeightsPut(u, pending - {temp}, name, entry);
    assert b[name := b[name]] == b;
  }

  lemma RewriteShape(u: Setup, s: Store, e: Event)
    requires e.Rewrite? && Enabled(u, s, e)
    ensures e.name in s.pending && IsItemName(e.name) && IsTempName(e.temp) && ReadEnvelope(u, s.pending[e.name]).Some?
    ensures Apply(u, s, e).pending
            == (s.pending - {e.temp})[e.name := File(Rewritten(u, s.pending[e.name], e.attempt, e.nextAt))]
    ensures Apply(u, s, e).ledger == s.ledger
  {
    hide Rewritten, HasSuffix;
  }

  lemma RewriteTame(u: Setup, s: Store, e: Event)
    requires ValidSetup(u) && Sound(u, s) && Tame(u, s) && e.Rewrite? && Enabled(u, s, e)
    ensures Tame(u, Apply(u, s, e))
  {
    hide Sound, BaseSize, BaseWeights, Rewritten, ReadEnvelope, HasSuffix, Enabled, Apply;
    RewriteShape(u, s, e);
    RewrittenSize(u, s, e);
    BaseWeightsReplace(u, s.pending, e.temp, e.name, Apply(u, s, e).pending[e.name]);
    TempIsNoItem(e.temp);
    assert forall name :: name in Apply(u, s, e).pending && IsItemName(name) ==> name in s.pending;
  }

  /** A retry changes an item's size by its retry digits and nothing else. */
  lemma RewrittenSize(u: Setup, s: Store, e: Event)
    requires ValidSetup(u) && Sound(u, s) && e.Rewrite? && Enabled(u, s, e) && Owned(s, e.name)
    ensures var old', new' := s.pending[e.name], Apply(u, s, e).pending[e.name];
            && new' == File(Rewritten(u, old', e.attempt, e.nextAt))
            && BaseSize(u, new') == BaseSize(u, old')
            && Size(new') == BaseSize(u, old') - 2 + |Number(e.attempt)| + |Number(e.nextAt)|
  {
    OwnedSize(u, s, e.name);
    assert SoundId(u, s, IdOf(e.name));
    var item := ItemOf(ReadEnvelope(u, s.pending[e.name]).value);
    var next := item.(attempt := e.attempt, nextAt := e.nextAt);
    WrittenReadsBack(u, item);
    WrittenReadsBack(u, next);
    RenderLength(Seal(u, item), 0, 0);
    RenderLength(Seal(u, next), 0, 0);
  }

  lemma TakenTame(u: Setup, s: Store, e: Event)
    requires Tame(u, s) && (e.Remove? || e.Move?) && Enabled(u, s, e)
    ensures Tame(u, Apply(u, s, e))
  {
    hide BaseSize, BaseWeights, ReadEnvelope, FateAfter, Fits, PastTtl, HasSuffix, QuarantineName, LastItem;
    var t := Apply(u, s, e);
    var b := BaseWeights(u, s.pending);
    BaseWeightsDrop(u, s.pending, e.name);
    SumMonotone(b - {e.name}, b);
    SubsetSize((b - {e.name}).Keys, b.Keys);
    assert |b - {e.name}| == |(b - {e.name}).Keys| && |b| == |b.Keys|;
    forall name | name in t.pending && IsItemName(name) ensures Owned(t, name) {
      assert Owned(s, name);
      assert name == FileName(IdOf(name)) && e.name != name;
    }
  }

  lemma OthersTame(u: Setup, s: Store, e: Event)
    requires Sound(u, s) && Tame(u, s) && (e.WriteTemp? || e.Evict?) && Enabled(u, s, e)
    ensures Tame(u, Apply(u, s, e))
  {
    hide BaseSize, BaseWeights, SoundId, HasSuffix;
    var t := Apply(u, s, e);
    if e.WriteTemp? {
      TempIsNoItem(e.name);
      BaseWeightsPut(u, s.pending, e.name, File(e.content));
    } else {
      assert SoundFile(s, e.file);
    }
    forall name | name in t.pending && IsItemName(name) ensures Owned(t, name) {
      assert Owned(s, name);
    }
  }

  lemma StepTame(u: Setup, s: Store, e: Event)
    requires ValidSetup(u) && Sound(u, s) && Tame(u, s) && Enabled(u, s, e)
    ensures Tame(u, Apply(u, s, e))
  {
    hide Sound, Tame, Enabled, Apply;
    match e
    case WriteTemp(_, _) => OthersTame(u, s, e);
    case Persist(_, _, _) => PersistTame(u, s, e);
    case Rewrite(_, _, _, _) => RewriteTame(u, s, e);
    case Remove(_, _) => TakenTame(u, s, e);
    case Move(_, _) => TakenTame(u, s, e);
    case Evict(_) => OthersTame(u, s, e);
  }

  /** In every state of every run the spool holds at most its number of items,
      and at most its number of bytes plus 27 for each item. */
  lemma {:induction false} PendingBound(u: Setup, origin: Store, run: seq<Event>)
    requires ValidSetup(u) && Sound(u, origin) && Tame(u, origin) && Legal(u, origin, run)
    ensures var s := Replay(u, origin, run);
            && Tame(u, s)
            && |PendingWeights(s.pending)| <= u.limits.maxPendingItems
            && Sum(PendingWeights(s.pending)) <= u.limits.maxPendingBytes + 27 * |PendingWeights(s.pending)|
  {
    hide Sound, Enabled, Apply;
    if run != [] {
      PendingBound(u, origin, run[..|run| - 1]);
      RunSound(u, origin, run[..|run| - 1]);
      StepTame(u, Replay(u, origin, run[..|run| - 1]), run[|run| - 1]);
    }
    RunSound(u, origin, run);
    TameUsage(u, Replay(u, origin, run));
  }

  lemma PendingWeightsReplace(u: Setup, pending: map<string, Entry>, temp: string, name: string, entry: Entry)
    requires IsTempName(temp) && IsItemName(name) && name in pending && pending[name].File? && entry.File?
    ensures name in PendingWeights(pending) && PendingWeights(pending)[name] == Size(pending[name])
    ensures PendingWeights((pending - {temp})[name := entry]) == PendingWeights(pending)[name := Size(entry)]
  {
    TempIsNoItem(temp);
    hide HasSuffix;
  }

  /** What a retry does to the size of the directory. */
  lemma RewriteWeight(u: Setup, s: Store, e: Event)
    requires ValidSetup(u) && Sound(u, s) && e.Rewrite? && Enabled(u, s, e) && Owned(s, e.name)
    ensures e.name in s.pending && ReadEnvelope(u, s.pending[e.name]).Some?
    ensures var old' := ReadEnvelope(u, s.pending[e.name]).value;
            Sum(PendingWeights(Apply(u, s, e).pending))
            == Sum(PendingWeights(s.pending)) + |Number(e.attempt)| + |Number(e.nextAt)|
               - |Number(old'.attempt)| - |Number(old'.nextAt)|
  {
    hide Sound, Enabled, Apply, Rewritten, BaseSize, PendingWeights, Sum, HasSuffix, Number, ReadEnvelope, Size, Holds;
    RewriteShape(u, s, e);
    OwnedSize(u, s, e.name);
    RewrittenSize(u, s, e);
    var w := PendingWeights(s.pending);
    var size := Size(Apply(u, s, e).pending[e.name]);
    PendingWeightsReplace(u, s.pending, e.temp, e.name, Apply(u, s, e).pending[e.name]);
    SumTake(w, e.name);
    SumPut(w - {e.name}, e.name, size);
    assert w[e.name := size] == (w - {e.name})[e.name := size];
  }

  /** The byte limit itself is not kept: a retry keeps the directory within it
      exactly when the digits the retry data gains are free. */
  lemma RetryKeepsByteLimitIff(u: Setup, s: Store, e: Event)
    requires ValidSetup(u) && Sound(u, s) && e.Rewrite? && Enabled(u, s, e) && Owned(s, e.name)
    ensures var before, after := Sum(PendingWeights(s.pending)), Sum(PendingWeights(Apply(u, s, e).pending));
            var old' := ReadEnvelope(u, s.pending[e.name]).value;
            after <= u.limits.maxPendingBytes <==>
            before + |Number(e.attempt)| + |Number(e.nextAt)|
              <= u.limits.maxPendingBytes + |Number(old'.attempt)| + |Number(old'.nextAt)|
  {
    RewriteWeight(u, s, e);
    hide *;
  }

  // -------------------------------------------------------- quarantine bounds

  lemma MoveBounded(u: Setup, s: Store, e: Event)
    requires e.Move? && Enabled(u, s, e)
    ensures QuarantineBounded(u.limits, Apply(u, s, e).quarantine)
  {
    hide QuarantineName, LastItem, ReadEnvelope, HasSuffix, Sum;
    PutBounded(u.limits, s.quarantine, QuarantineName(e.name, e.reason), s.pending[e.name]);
  }

  /** What fits does not break the bounds. */
  lemma PutBounded(l: Limits, q: map<string, Entry>, file: string, entry: Entry)
    requires entry.File? && Fits(l, q, Size(entry))
    ensures QuarantineBounded(l, q[file := entry])
  {
    hide Sum, Size;
    var w, size := QuarantineWeights(q), Size(entry);
    var rest := w - {file};
    assert QuarantineWeights(q[file := entry]) == rest[file := size];
    SumPut(rest, file, size);
    SumMonotone(rest, w);
    SubsetSize(rest.Keys, w.Keys);
    assert |rest| == |rest.Keys| && |w| == |w.Keys|;
  }

  lemma EvictBounded(u: Setup, s: Store, e: Event)
    requires e.Evict? && Enabled(u, s, e) && QuarantineBounded(u.limits, s.quarantine)
    ensures QuarantineBounded(u.limits, Apply(u, s, e).quarantine)
  {
    var w := QuarantineWeights(s.quarantine);
    assert QuarantineWeights(s.quarantine - {e.file}) == w - {e.file};
    SumTake(w, e.file);
    assert |w - {e.file}| == |w| - 1;
  }

  /** Whatever the quarantine held to begin with: from the first move into it
      on it is within its bounds for ever. */
  lemma {:induction false} QuarantineBound(u: Setup, origin: Store, run: seq<Event>)
    requires Legal(u, origin, run)
    requires (exists e :: e in run && e.Move?) || QuarantineBounded(u.limits, origin.quarantine)
    ensures QuarantineBounded(u.limits, Replay(u, origin, run).quarantine)
  {
    if run != [] {
      var shorter, e := run[..|run| - 1], run[|run| - 1];
      var s := Replay(u, origin, shorter);
      if e.Move? {
        MoveBounded(u, s, e);
      } else {
        assert forall x :: x in run && x.Move? ==> x in shorter;
        QuarantineBound(u, origin, shorter);
        if e.Evict? {
          EvictBounded(u, s, e);
        }
      }
    }
  }

  // ------------------------------------------------------------- unused ids

  /** The store after the first `j` changes. */
  function At(u: Setup, origin: Store, run: seq<Event>, j: nat): Store
    requires j <= |run|
  {
    Replay(u, origin, run[..j])
  }

  /** No name of an item that is yet to be stored is in use. */
  ghost predicate Unclaimed(s: Store, ids: set<string>) {
    forall id :: id in ids && id !in s.ledger ==>
      FileName(id) !in s.pending && forall file :: file in s.quarantine ==> Base(file) != FileName(id)
  }

  /** Only storing an item uses its id. */
  lemma StepUnclaimed(u: Setup, s: Store, e: Event, ids: set<string>)
    requires Enabled(u, s, e) && Unclaimed(s, ids)
    ensures Unclaimed(Apply(u, s, e), ids)
  {
    var t := Apply(u, s, e);
    if e.Move? { BaseDropsReason(e.name, CleanReason(e.reason)); }
    if e.WriteTemp? { TempIsNoItem(e.name); }
    hide HasSuffix, IsTempName, Encode, MakeId, Rewritten, Fits, ReadEnvelope, PendingWeights, Base, LastItem, FateAfter, PastTtl;
    forall id | id in ids && id !in t.ledger
      ensures FileName(id) !in t.pending && forall file :: file in t.quarantine ==> Base(file) != FileName(id)
    {
      IdOfFileName(id);
      if e.Persist? { IdOfFileName(MakeId(e.item.created, e.random)); }
    }
  }

  lemma {:induction false} RunUnclaimed(u: Setup, origin: Store, run: seq<Event>, k: nat, j: nat, ids: set<string>)
    requires Legal(u, origin, run) && k <= j <= |run| && Unclaimed(At(u, origin, run, k), ids)
    ensures Unclaimed(At(u, origin, run, j), ids)
    decreases j
  {
    hide Unclaimed, Enabled, Apply;
    if k < j {
      RunUnclaimed(u, origin, run, k, j - 1, ids);
      LegalPrefix(u, origin, run, j);
      assert run[..j][..j - 1] == run[..j - 1];
      StepUnclaimed(u, At(u, origin, run, j - 1), run[j - 1], ids);
    }
  }
}
