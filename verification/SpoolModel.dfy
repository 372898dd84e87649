/** The spool's two directories as values, the atomic changes that can happen
    to them, and what every run of such changes keeps
    (internal/agent/probe_spool.go). */
module SpoolModel {
  import opened Text
  import opened Envelopes
  import opened Sums

  // ------------------------------------------------------------------- names

  const ITEM_SUFFIX := ".json"
  const TEMP_PREFIX := ".probe-spool-"
  const TEMP_SUFFIX := ".tmp"

  predicate HasSuffix(s: string, suffix: string) {
    |s| >= |suffix| && s[|s| - |suffix|..] == suffix
  }

  predicate IsItemName(name: string) {
    HasSuffix(name, ITEM_SUFFIX)
  }

  function FileName(id: string): (name: string)
    ensures IsItemName(name)
  {
    assert (id + ITEM_SUFFIX)[|id|..] == ITEM_SUFFIX;
    id + ITEM_SUFFIX
  }

  function IdOf(name: string): (id: string)
    requires IsItemName(name)
    ensures FileName(id) == name
  {
    name[..|name| - 5]
  }

  lemma IdOfFileName(id: string)
    ensures IdOf(FileName(id)) == id
  {
  }

  predicate IsTempName(name: string) {
    TEMP_PREFIX <= name && HasSuffix(name, TEMP_SUFFIX)
  }

  lemma LastChar(name: string, suffix: string)
    requires suffix != ""
    ensures HasSuffix(name, suffix) ==> name != "" && name[|name| - 1] == suffix[|suffix| - 1]
  {
    if HasSuffix(name, suffix) {
      assert name[|name| - |suffix|..][|suffix| - 1] == name[|name| - 1];
    }
  }

  lemma TempIsNoItem(name: string)
    requires IsTempName(name)
    ensures !IsItemName(name)
  {
    LastChar(name, TEMP_SUFFIX);
    LastChar(name, ITEM_SUFFIX);
  }

  const ID_DIGITS: nat := 20
  const RANDOM_HEX: nat := 32

  /** `%020d-%s` */
  function MakeId(created: int, random: string): string {
    (if created < 0 then "-" + Fixed(-created, ID_DIGITS - 1) else Fixed(created, ID_DIGITS)) + ("-" + random)
  }

  /** For every int64 the first part is the shortest numeral, padded with zeros
      to twenty characters, its sign included. */
  lemma MakeIdPads(created: int, random: string)
    requires -MAX_INT64 - 1 <= created <= MAX_INT64
    ensures created >= 0 ==>
              && |Digits(created)| <= 20
              && MakeId(created, random) == (Zeros(20 - |Digits(created)|) + Digits(created)) + ("-" + random)
    ensures created < 0 ==>
              && |Digits(-created)| <= 19
              && MakeId(created, random) == ("-" + (Zeros(19 - |Digits(-created)|) + Digits(-created))) + ("-" + random)
  {
    assert Pow10(10) == 10_000_000_000;
    assert Pow10(19) == 10_000_000_000_000_000_000 by { assert Pow10(13) == 10_000_000_000_000; }
    assert Pow10(20) == 10 * Pow10(19);
    hide Pow10;
    if created >= 0 {
      FixedIsPaddedDigits(created, 20);
    } else {
      FixedIsPaddedDigits(-created, 19);
    }
  }

  /** Sixteen random bytes in hexadecimal. */
  predicate IsRandom(random: string) {
    |random| == RANDOM_HEX && forall i :: 0 <= i < |random| ==> IsDigit(random[i]) || 'a' <= random[i] <= 'f'
  }

  function CleanChar(c: char): char {
    if 'a' <= c <= 'z' || '0' <= c <= '9' || c == '-' then c
    else if 'A' <= c <= 'Z' then (c as int + 32) as char
    else if c == '\U{130}' then 'i'
    else if c == '\U{212A}' then 'k'
    else '-'
  }

  function CleanReason(reason: string): (r: string)
    ensures '.' !in r
  {
    if reason == "" then "" else [CleanChar(reason[0])] + CleanReason(reason[1..])
  }

  function QuarantineName(name: string, reason: string): string {
    name + ("." + CleanReason(reason))
  }

  /** A quarantine file's name without its reason. */
  function Base(file: string): string {
    if file == "" then ""
    else if file[|file| - 1] == '.' then file[..|file| - 1]
    else Base(file[..|file| - 1])
  }

  lemma {:induction false} BaseDropsReason(name: string, reason: string)
    requires '.' !in reason
    ensures Base(name + ("." + reason)) == name
  {
    var file := name + ("." + reason);
    if reason == "" {
      assert file[..|file| - 1] == name;
    } else {
      assert file[..|file| - 1] == name + ("." + reason[..|reason| - 1]);
      BaseDropsReason(name, reason[..|reason| - 1]);
    }
  }

  /** Two files share a quarantine name only if they shared a name before. */
  lemma QuarantineNameInjective(a: string, b: string, r: string, q: string)
    requires QuarantineName(a, r) == QuarantineName(b, q)
    ensures a == b
  {
    BaseDropsReason(a, CleanReason(r));
    BaseDropsReason(b, CleanReason(q));
  }

  // ------------------------------------------------------------------- state

  /** Times and durations are nanoseconds. */
  datatype Limits = Limits(
    ttl: int, maxPendingItems: int, maxPendingBytes: int, maxItemBytes: int,
    minFreeBytes: nat, maxQuarantineItems: int, maxQuarantineBytes: int)

  predicate ValidLimits(l: Limits) {
    && l.ttl > 0 && l.maxPendingItems > 0 && l.maxPendingBytes > 0 && l.maxItemBytes > 0
    && l.maxQuarantineItems > 0 && l.maxQuarantineBytes > 0
    && l.maxItemBytes <= l.maxPendingBytes
  }

  datatype Setup = Setup(codec: Codec, limits: Limits)

  ghost predicate ValidSetup(u: Setup) {
    Faithful(u.codec) && ValidLimits(u.limits)
  }

  /** A directory entry: a regular file, a directory, or anything else. */
  datatype Entry = File(content: string) | Directory | Special(size: nat)

  function Size(e: Entry): nat {
    match e
    case File(content) => |content|
    case Directory => 0
    case Special(size) => size
  }

  datatype Item = Item(created: int, attempt: int, nextAt: int, body: string)

  function ItemOf(e: Envelope): Item {
    Item(e.created, e.attempt, e.nextAt, e.batch)
  }

  function Seal(u: Setup, item: Item): Envelope {
    Envelope(SCHEMA_VERSION, item.created, item.attempt, item.nextAt, u.codec.checksum(item.body), item.body)
  }

  function Encode(u: Setup, item: Item): string {
    Render(Seal(u, item))
  }

  function LowerHex(c: char): char {
    if 'A' <= c <= 'Z' then (c as int + 32) as char else c
  }

  /** Checksums are compared without regard to the case of letters. */
  predicate SameChecksum(a: string, b: string) {
    |a| == |b| && forall i :: 0 <= i < |a| ==> LowerHex(a[i]) == LowerHex(b[i])
  }

  /** readEnvelopeLocked on a file that can be read. */
  function ReadEnvelope(u: Setup, entry: Entry): Option<Envelope> {
    if !entry.File? || |entry.content| > u.limits.maxItemBytes then None
    else
      var decoded := u.codec.decode(entry.content);
      if decoded.None? then None
      else
        var e := decoded.value;
        if e.schema != SCHEMA_VERSION || e.created <= 0 || e.nextAt <= 0 || e.batch == "" then None
        else if !SameChecksum(e.checksum, u.codec.checksum(e.batch)) then None
        else if !u.codec.hasRounds(e.batch) then None
        else Some(e)
  }

  /** Equal but for the case of letters. */
  predicate EqualButCase(a: string, b: string) {
    |a| == |b| && forall i :: 0 <= i < |a| ==>
      || a[i] == b[i]
      || ('A' <= a[i] <= 'Z' && a[i] as int + 32 == b[i] as int)
      || ('A' <= b[i] <= 'Z' && b[i] as int + 32 == a[i] as int)
  }

  /** A file that holds `e` unharmed: a regular file of allowed size, one envelope
      of this version with its times and a batch that has rounds, under the
      checksum of exactly this batch. */
  predicate Intact(u: Setup, entry: Entry, e: Envelope) {
    && entry.File? && |entry.content| <= u.limits.maxItemBytes
    && u.codec.decode(entry.content) == Some(e)
    && e.schema == 1 && e.created > 0 && e.nextAt > 0 && |e.batch| > 0
    && u.codec.hasRounds(e.batch)
    && EqualButCase(e.checksum, u.codec.checksum(e.batch))
  }

  lemma SameChecksumIff(a: string, b: string)
    ensures SameChecksum(a, b) <==> EqualButCase(a, b)
  {
  }

  /** Files are read exactly if they are intact. */
  lemma ReadIffIntact(u: Setup, entry: Entry, e: Envelope)
    ensures ReadEnvelope(u, entry) == Some(e) <==> Intact(u, entry, e)
  {
    SameChecksumIff(e.checksum, u.codec.checksum(e.batch));
    hide SameChecksum, EqualButCase;
  }

  /** So a batch that was changed under its old checksum is not read, whatever it
      was changed to, if the checksums of the two differ in more than case. */
  lemma DamageIsNoticed(u: Setup, entry: Entry, damaged: Entry, e: Envelope, batch: string)
    requires ReadEnvelope(u, entry) == Some(e)
    requires damaged.File? && u.codec.decode(damaged.content) == Some(e.(batch := batch))
    ensures EqualButCase(e.checksum, u.codec.checksum(e.batch))
    ensures ReadEnvelope(u, damaged).Some? ==> EqualButCase(e.checksum, u.codec.checksum(batch))
  {
    SameChecksumIff(e.checksum, u.codec.checksum(e.batch));
    SameChecksumIff(e.checksum, u.codec.checksum(batch));
    hide SameChecksum, EqualButCase;
  }

  /** An item the spool may write under its limits. */
  predicate Storable(u: Setup, item: Item) {
    && Sealed(u.codec, Seal(u, item))
    && |Encode(u, item)| <= u.limits.maxItemBytes
  }

  /** What the spool writes it reads back. */
  lemma WrittenReadsBack(u: Setup, item: Item)
    requires ValidSetup(u) && Storable(u, item)
    ensures ReadEnvelope(u, File(Encode(u, item))) == Some(Seal(u, item))
    ensures ItemOf(Seal(u, item)) == item
  {
    assert u.codec.decode(Render(Seal(u, item))) == Some(Seal(u, item));
  }

  /** The valid pending items, by id: what the directory means. */
  function View(u: Setup, pending: map<string, Entry>): map<string, Item> {
    map name | name in pending && IsItemName(name) && ReadEnvelope(u, pending[name]).Some?
      :: IdOf(name) := ItemOf(ReadEnvelope(u, pending[name]).value)
  }

  lemma ViewAt(u: Setup, pending: map<string, Entry>, id: string)
    ensures id in View(u, pending) <==> FileName(id) in pending && ReadEnvelope(u, pending[FileName(id)]).Some?
    ensures id in View(u, pending) ==> View(u, pending)[id] == ItemOf(ReadEnvelope(u, pending[FileName(id)]).value)
  {
    IdOfFileName(id);
    if id in View(u, pending) {
      var name :| name in pending && IsItemName(name) && ReadEnvelope(u, pending[name]).Some? && IdOf(name) == id;
      assert name == FileName(id);
    }
  }

  lemma ViewOfDrop(u: Setup, pending: map<string, Entry>, id: string)
    ensures View(u, pending - {FileName(id)}) == View(u, pending) - {id}
  {
    hide View, ReadEnvelope;
    var left, right := View(u, pending - {FileName(id)}), View(u, pending) - {id};
    forall x ensures x in left <==> x in right
             ensures x in left ==> left[x] == right[x]
    {
      ViewAt(u, pending, x);
      ViewAt(u, pending - {FileName(id)}, x);
      IdOfFileName(x);
      IdOfFileName(id);
    }
  }

  lemma ViewOfPut(u: Setup, pending: map<string, Entry>, id: string, entry: Entry, item: Item)
    requires ReadEnvelope(u, entry).Some? && ItemOf(ReadEnvelope(u, entry).value) == item
    ensures View(u, pending[FileName(id) := entry]) == View(u, pending)[id := item]
  {
    hide View, ReadEnvelope;
    var left, right := View(u, pending[FileName(id) := entry]), View(u, pending)[id := item];
    forall x ensures x in left <==> x in right
             ensures x in left ==> left[x] == right[x]
    {
      ViewAt(u, pending, x);
      ViewAt(u, pending[FileName(id) := entry], x);
      IdOfFileName(x);
      IdOfFileName(id);
    }
  }

  predicate PastTtl(u: Setup, created: int, now: int) {
    now - created >= u.limits.ttl
  }

  /** What has become of an item that was once stored. `Lost` are those a crash
      took from both directories while they were moved. */
  datatype Fate =
    | Pending
    | Acked
    | Expired(at: int)
    | Quarantined(file: string, last: Item)
    | Dropped(last: Item)
    | Evicted
    | Lost

  /** What was stored under an id. */
  datatype Birth = Birth(created: int, random: string, body: string)

  datatype Store = Store(
    pending: map<string, Entry>, quarantine: map<string, Entry>,
    ledger: map<string, Fate>, births: map<string, Birth>)

  /** The ledger knows the pending file `name`. */
  predicate Owned(s: Store, name: string) {
    IsItemName(name) && IdOf(name) in s.ledger && s.ledger[IdOf(name)].Pending?
  }

  /** Nobody but the spool has put items into the directory. */
  ghost predicate AllOwned(s: Store) {
    forall name :: name in s.pending && IsItemName(name) ==> Owned(s, name)
  }

  /** `item` carries the creation time and the body of `b`. */
  predicate Faithfully(b: Birth, item: Item) {
    item.created == b.created && item.body == b.body
  }

  /** A pending file holds exactly what was stored, up to the retry data. */
  predicate Holds(u: Setup, b: Birth, entry: Entry) {
    var read := ReadEnvelope(u, entry);
    && read.Some?
    && Storable(u, ItemOf(read.value))
    && Faithfully(b, ItemOf(read.value))
    && entry == File(Encode(u, ItemOf(read.value)))
  }

  ghost predicate SoundId(u: Setup, s: Store, id: string)
    requires id in s.ledger && id in s.births
  {
    var b := s.births[id];
    && 0 < b.created <= MAX_INT64
    && IsRandom(b.random)
    && id == MakeId(b.created, b.random)
    && (FileName(id) in s.pending <==> s.ledger[id].Pending?)
    && match s.ledger[id]
       case Pending => Holds(u, b, s.pending[FileName(id)])
       case Acked => true
       case Expired(at) => PastTtl(u, b.created, at)
       case Quarantined(file, last) =>
         && Faithfully(b, last)
         && Base(file) == FileName(id)
         && file in s.quarantine && s.quarantine[file] == File(Encode(u, last))
       case Dropped(last) => Faithfully(b, last) && |Encode(u, last)| > u.limits.maxQuarantineBytes
       case Evicted => true
       case Lost => true
  }

  /** A quarantine file that bears the name of a stored item is that item's. */
  predicate SoundFile(s: Store, file: string) {
    IsItemName(Base(file)) && IdOf(Base(file)) in s.ledger ==>
      s.ledger[IdOf(Base(file))].Quarantined? && s.ledger[IdOf(Base(file))].file == file
  }

  /** Every stored item is in exactly one place, and that place holds exactly
      what was stored. */
  ghost predicate Sound(u: Setup, s: Store) {
    && s.births.Keys == s.ledger.Keys
    && (forall id :: id in s.ledger ==> SoundId(u, s, id))
    && (forall file :: file in s.quarantine ==> SoundFile(s, file))
  }

  const Empty := Store(map[], map[], map[], map[])

  lemma EmptySound(u: Setup)
    ensures Sound(u, Empty)
  {
  }

  // ------------------------------------------------------------------ bounds

  function QuarantineWeights(q: map<string, Entry>): map<string, nat> {
    map file | file in q && !q[file].Directory? :: Size(q[file])
  }

  /** There is room for one more file of `incoming` bytes. */
  ghost predicate Fits(l: Limits, q: map<string, Entry>, incoming: nat) {
    && |QuarantineWeights(q)| + 1 <= l.maxQuarantineItems
    && Sum(QuarantineWeights(q)) + incoming <= l.maxQuarantineBytes
  }

  ghost predicate QuarantineBounded(l: Limits, q: map<string, Entry>) {
    && |QuarantineWeights(q)| <= l.maxQuarantineItems
    && Sum(QuarantineWeights(q)) <= l.maxQuarantineBytes
  }

  function PendingWeights(pending: map<string, Entry>): map<string, nat> {
    map name | name in pending && !pending[name].Directory? && IsItemName(name) :: Size(pending[name])
  }

  // ----------------------------------------------------------------- changes

  datatype Why = ByAck | ByAge(now: int) | ByOversize | ByClearing

  /** The changes the file system makes one at a time. */
  datatype Event =
    | WriteTemp(name: string, content: string)
    | Persist(temp: string, random: string, item: Item)
    | Rewrite(temp: string, name: string, attempt: int, nextAt: int)
    | Remove(name: string, why: Why)
    | Move(name: string, reason: string)
    | Evict(file: string)

  ghost predicate Enabled(u: Setup, s: Store, e: Event) {
    match e
    case WriteTemp(name, content) =>
      IsTempName(name)
    case Persist(temp, random, item) =>
      var id := MakeId(item.created, random);
      && IsTempName(temp)
      && IsRandom(random)
      && item.created > 0
      && id !in s.ledger && FileName(id) !in s.pending
      && (forall file :: file in s.quarantine ==> Base(file) != FileName(id))
      && item.attempt == 0 && item.nextAt == item.created
      && Storable(u, item)
      && |PendingWeights(s.pending)| < u.limits.maxPendingItems
      && Sum(PendingWeights(s.pending)) + |Encode(u, item)| <= u.limits.maxPendingBytes
    case Rewrite(temp, name, attempt, nextAt) =>
      && IsTempName(temp)
      && IsItemName(name) && name in s.pending && ReadEnvelope(u, s.pending[name]).Some?
      && 0 <= attempt <= MAX_UINT32 && 0 < nextAt <= MAX_INT64
      && |Rewritten(u, s.pending[name], attempt, nextAt)| <= u.limits.maxItemBytes
    case Remove(name, why) =>
      && name in s.pending
      && match why {
           case ByAck => IsItemName(name)
           case ByAge(now) =>
             && IsItemName(name)
             && ReadEnvelope(u, s.pending[name]).Some?
             && PastTtl(u, ReadEnvelope(u, s.pending[name]).value.created, now)
           case ByOversize => s.pending[name].File? && Size(s.pending[name]) > u.limits.maxQuarantineBytes
           case ByClearing => IsTempName(name) || !s.pending[name].File?
         }
    case Move(name, reason) =>
      && name in s.pending && s.pending[name].File?
      && Fits(u.limits, s.quarantine, Size(s.pending[name]))
      && (QuarantineName(name, reason) in s.quarantine ==> !s.quarantine[QuarantineName(name, reason)].Directory?)
    case Evict(file) =>
      file in s.quarantine && !s.quarantine[file].Directory?
  }

  /** The bytes ScheduleRetry writes over an item. */
  function Rewritten(u: Setup, entry: Entry, attempt: int, nextAt: int): string
    requires ReadEnvelope(u, entry).Some?
  {
    var e := ReadEnvelope(u, entry).value;
    Render(e.(attempt := attempt, nextAt := nextAt, batch := u.codec.compact(e.batch)))
  }

  /** The item in a file that is known to hold one. */
  function LastItem(u: Setup, entry: Entry): Item {
    var read := ReadEnvelope(u, entry);
    if read.Some? then ItemOf(read.value) else Item(0, 0, 0, "")
  }

  function FateAfter(u: Setup, entry: Entry, why: Why): Fate {
    match why
    case ByAck => Acked
    case ByAge(now) => Expired(now)
    case ByOversize => Dropped(LastItem(u, entry))
    case ByClearing => Evicted
  }

  function Apply(u: Setup, s: Store, e: Event): Store {
    match e
    case WriteTemp(name, content) =>
      s.(pending := s.pending[name := File(content)])
    case Persist(temp, random, item) =>
      var id := MakeId(item.created, random);
      s.(pending := (s.pending - {temp})[FileName(id) := File(Encode(u, item))],
         ledger := s.ledger[id := Pending],
         births := s.births[id := Birth(item.created, random, item.body)])
    case Rewrite(temp, name, attempt, nextAt) =>
      if name in s.pending && ReadEnvelope(u, s.pending[name]).Some? then
        s.(pending := (s.pending - {temp})[name := File(Rewritten(u, s.pending[name], attempt, nextAt))])
      else s
    case Remove(name, why) =>
      s.(pending := s.pending - {name},
         ledger := if Owned(s, name) && name in s.pending
                   then s.ledger[IdOf(name) := FateAfter(u, s.pending[name], why)]
                   else s.ledger)
    case Move(name, reason) =>
      if name !in s.pending then s
      else
        var file := QuarantineName(name, reason);
        s.(pending := s.pending - {name},
           quarantine := s.quarantine[file := s.pending[name]],
           ledger := if Owned(s, name)
                     then s.ledger[IdOf(name) := Quarantined(file, LastItem(u, s.pending[name]))]
                     else s.ledger)
    case Evict(file) =>
      s.(quarantine := s.quarantine - {file},
         ledger := if IsItemName(Base(file)) && IdOf(Base(file)) in s.ledger
                   then s.ledger[IdOf(Base(file)) := Evicted]
                   else s.ledger)
  }

  // ------------------------------------------- one change keeps the books right

  /** An id is as sound as before if neither its own file nor its quarantine
      file nor its books were touched. */
  lemma UntouchedId(u: Setup, s: Store, t: Store, id: string)
    requires id in s.ledger && id in s.births && SoundId(u, s, id)
    requires id in t.ledger && id in t.births
    requires t.ledger[id] == s.ledger[id] && t.births[id] == s.births[id]
    requires FileName(id) in t.pending <==> FileName(id) in s.pending
    requires FileName(id) in s.pending ==> t.pending[FileName(id)] == s.pending[FileName(id)]
    requires forall file :: file in s.quarantine && Base(file) == FileName(id) ==>
               file in t.quarantine && t.quarantine[file] == s.quarantine[file]
    ensures SoundId(u, t, id)
  {
  }

  lemma UntouchedFiles(s: Store, t: Store)
    requires t.quarantine == s.quarantine
    requires forall id :: id in s.ledger ==> id in t.ledger && (t.ledger[id] == s.ledger[id] || s.ledger[id].Pending?)
    requires forall id :: id in t.ledger && id !in s.ledger ==>
               forall file :: file in s.quarantine ==> Base(file) != FileName(id)
    requires forall file :: file in s.quarantine ==> SoundFile(s, file)
    ensures forall file :: file in t.quarantine ==> SoundFile(t, file)
  {
    forall file | file in t.quarantine ensures SoundFile(t, file) {
      assert SoundFile(s, file);
    }
  }

  lemma PersistedId(u: Setup, s: Store, e: Event)
    requires ValidSetup(u) && e.Persist? && Enabled(u, s, e)
    ensures SoundId(u, Apply(u, s, e), MakeId(e.item.created, e.random))
  {
    TempIsNoItem(e.temp);
    WrittenReadsBack(u, e.item);
  }

  lemma PersistSound(u: Setup, s: Store, e: Event)
    requires ValidSetup(u) && Sound(u, s) && e.Persist? && Enabled(u, s, e)
    ensures Sound(u, Apply(u, s, e))
  {
    hide SoundId, Encode;
    var t := Apply(u, s, e);
    var id := MakeId(e.item.created, e.random);
    TempIsNoItem(e.temp);
    PersistedId(u, s, e);
    forall x | x in t.ledger ensures SoundId(u, t, x) {
      if x != id {
        IdOfFileName(x);
        IdOfFileName(id);
        UntouchedId(u, s, t, x);
      }
    }
    UntouchedFiles(s, t);
  }

  lemma RewrittenId(u: Setup, s: Store, e: Event, id: string)
    requires ValidSetup(u) && id in s.ledger && id in s.births && SoundId(u, s, id)
    requires e.Rewrite? && e.name == FileName(id) && Enabled(u, s, e)
    ensures SoundId(u, Apply(u, s, e), id)
  {
    TempIsNoItem(e.temp);
    var item := ItemOf(ReadEnvelope(u, s.pending[e.name]).value);
    WrittenReadsBack(u, item);
    WrittenReadsBack(u, item.(attempt := e.attempt, nextAt := e.nextAt));
  }

  lemma RewriteSound(u: Setup, s: Store, e: Event)
    requires ValidSetup(u) && Sound(u, s) && e.Rewrite? && Enabled(u, s, e)
    ensures Sound(u, Apply(u, s, e))
  {
    hide SoundId, Rewritten;
    var t := Apply(u, s, e);
    TempIsNoItem(e.temp);
    forall x | x in t.ledger ensures SoundId(u, t, x) {
      if FileName(x) == e.name {
        RewrittenId(u, s, e, x);
      } else {
        UntouchedId(u, s, t, x);
      }
    }
    UntouchedFiles(s, t);
  }

  /** Taking a stored item's file away leaves the id sound: the reason it was
      taken away is the fate the ledger records. */
  lemma RemovedId(u: Setup, s: Store, e: Event, id: string)
    requires ValidSetup(u) && id in s.ledger && id in s.births && SoundId(u, s, id)
    requires e.Remove? && e.name == FileName(id) && Enabled(u, s, e)
    ensures SoundId(u, Apply(u, s, e), id)
  {
    IdOfFileName(id);
    if IsTempName(e.name) { TempIsNoItem(e.name); }
  }

  lemma RemoveSound(u: Setup, s: Store, e: Event)
    requires ValidSetup(u) && Sound(u, s) && e.Remove? && Enabled(u, s, e)
    ensures Sound(u, Apply(u, s, e))
  {
    hide SoundId;
    var t := Apply(u, s, e);
    forall x | x in t.ledger ensures SoundId(u, t, x) {
      if FileName(x) == e.name {
        RemovedId(u, s, e, x);
      } else {
        UntouchedId(u, s, t, x);
      }
    }
    UntouchedFiles(s, t);
  }

  lemma MovedId(u: Setup, s: Store, e: Event, id: string)
    requires ValidSetup(u) && id in s.ledger && id in s.births && SoundId(u, s, id)
    requires e.Move? && e.name == FileName(id) && Enabled(u, s, e)
    ensures SoundId(u, Apply(u, s, e), id)
  {
    IdOfFileName(id);
    BaseDropsReason(e.name, CleanReason(e.reason));
  }

  lemma MovedFiles(u: Setup, s: Store, e: Event)
    requires e.Move? && e.name in s.pending
    requires forall file :: file in s.quarantine ==> SoundFile(s, file)
    requires forall id :: id in s.ledger && FileName(id) == e.name ==> s.ledger[id].Pending?
    ensures forall file :: file in Apply(u, s, e).quarantine ==> SoundFile(Apply(u, s, e), file)
  {
    var t := Apply(u, s, e);
    var dest := QuarantineName(e.name, e.reason);
    BaseDropsReason(e.name, CleanReason(e.reason));
    forall file | file in t.quarantine ensures SoundFile(t, file) {
      if file != dest {
        assert SoundFile(s, file);
      }
    }
  }

  /** An id whose file is pending is pending. */
  lemma FileIsPending(u: Setup, s: Store, id: string)
    requires Sound(u, s) && id in s.ledger && FileName(id) in s.pending
    ensures s.ledger[id].Pending?
  {
    assert SoundId(u, s, id);
  }

  lemma MoveSound(u: Setup, s: Store, e: Event)
    requires ValidSetup(u) && Sound(u, s) && e.Move? && Enabled(u, s, e)
    ensures Sound(u, Apply(u, s, e))
  {
    hide SoundId, SoundFile;
    var t := Apply(u, s, e);
    BaseDropsReason(e.name, CleanReason(e.reason));
    forall x | x in t.ledger ensures SoundId(u, t, x) {
      if FileName(x) == e.name {
        MovedId(u, s, e, x);
      } else {
        UntouchedId(u, s, t, x);
      }
    }
    forall id | id in s.ledger && FileName(id) == e.name ensures s.ledger[id].Pending? {
      FileIsPending(u, s, id);
    }
    MovedFiles(u, s, e);
  }

  lemma EvictSound(u: Setup, s: Store, e: Event)
    requires ValidSetup(u) && Sound(u, s) && e.Evict? && Enabled(u, s, e)
    ensures Sound(u, Apply(u, s, e))
  {
    hide ReadEnvelope, Encode, MakeId;
    var t := Apply(u, s, e);
    assert SoundFile(s, e.file);
    forall x | x in t.ledger ensures SoundId(u, t, x) {
      IdOfFileName(x);
      if FileName(x) == Base(e.file) {
        assert SoundId(u, s, x);
      } else {
        UntouchedId(u, s, t, x);
      }
    }
    forall file | file in t.quarantine ensures SoundFile(t, file) {
      assert SoundFile(s, file);
    }
  }

  /** No single change, whichever the file system makes next, breaks the
      books. */
  lemma StepSound(u: Setup, s: Store, e: Event)
    requires ValidSetup(u) && Sound(u, s) && Enabled(u, s, e)
    ensures Sound(u, Apply(u, s, e))
  {
    match e
    case WriteTemp(name, content) =>
      var t := Apply(u, s, e);
      TempIsNoItem(name);
      forall x | x in t.ledger ensures SoundId(u, t, x) {
        assert SoundId(u, s, x);
      }
      forall file | file in t.quarantine ensures SoundFile(t, file) {
        assert SoundFile(s, file);
      }
    case Persist(_, _, _) => PersistSound(u, s, e);
    case Rewrite(_, _, _, _) => RewriteSound(u, s, e);
    case Remove(_, _) => RemoveSound(u, s, e);
    case Move(_, _) => MoveSound(u, s, e);
    case Evict(_) => EvictSound(u, s, e);
  }
}
