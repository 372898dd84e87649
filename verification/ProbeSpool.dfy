/** The spool itself: the methods of internal/agent/probe_spool.go over two
    directories. Any file-system call may fail; a process that dies is one whose
    later calls all fail. */
module ProbeSpoolStore {
  import opened Text
  import opened Envelopes
  import opened Sums
  import opened SpoolModel
  import opened SpoolRuns
  import opened ProbeRounds

  // ------------------------------------------------------------ sorted names

  predicate Sorted(names: seq<string>) {
    forall i, j :: 0 <= i < j < |names| ==> Less(names[i], names[j])
  }

  method LeastName(names: set<string>) returns (least: string)
    requires names != {}
    ensures least in names
    ensures forall n :: n in names ==> n == least || Less(least, n)
  {
    least :| least in names;
    var rest := names - {least};
    while rest != {}
      invariant rest <= names && least in names
      invariant forall n :: n in names && n !in rest ==> n == least || Less(least, n)
      decreases |rest|
    {
      var n :| n in rest;
      rest := rest - {n};
      LessTotal(n, least);
      if Less(n, least) {
        forall m | m in names && m !in rest ensures m == n || Less(n, m) {
          if m != n && m != least { LessTransitive(n, least, m); }
        }
        least := n;
      }
    }
  }

  method SortNames(names: set<string>) returns (sorted: seq<string>)
    ensures Sorted(sorted)
    ensures forall n :: n in sorted <==> n in names
  {
    sorted := [];
    var rest := names;
    while rest != {}
      invariant rest <= names
      invariant Sorted(sorted)
      invariant forall n :: n in names <==> n in rest || n in sorted
      invariant forall m, n :: m in sorted && n in rest ==> Less(m, n)
      decreases |rest|
    {
      var least := LeastName(rest);
      sorted := sorted + [least];
      rest := rest - {least};
    }
  }

  /** The weights of the names seen so far. */
  function Seen(weights: map<string, nat>, names: seq<string>): map<string, nat> {
    map n | n in weights && n in names :: weights[n]
  }

  lemma SeenOneMore(weights: map<string, nat>, names: seq<string>, k: nat)
    requires Sorted(names) && k < |names|
    ensures names[k] in weights ==>
              && Sum(Seen(weights, names[..k + 1])) == Sum(Seen(weights, names[..k])) + weights[names[k]]
              && |Seen(weights, names[..k + 1])| == |Seen(weights, names[..k])| + 1
    ensures names[k] !in weights ==> Seen(weights, names[..k + 1]) == Seen(weights, names[..k])
  {
    var before, n := Seen(weights, names[..k]), names[k];
    assert names[..k + 1] == names[..k] + [n];
    forall i | 0 <= i < k ensures names[i] != n {
      LessIrreflexive(n);
    }
    if n in weights {
      assert Seen(weights, names[..k + 1]) == before[n := weights[n]];
      SumPut(before, n, weights[n]);
    }
  }

  /** After the first `k` names, `items` are those that weigh something, in
      order, and `total` is their weight. */
  ghost predicate Tallied(weights: map<string, nat>, names: seq<string>, k: nat, items: seq<string>, total: int) {
    && k <= |names|
    && Sorted(items)
    && (forall n :: n in items <==> n in Seen(weights, names[..k]))
    && |items| == |Seen(weights, names[..k])|
    && total == Sum(Seen(weights, names[..k]))
  }

  lemma TallyNone(weights: map<string, nat>, names: seq<string>)
    ensures Tallied(weights, names, 0, [], 0)
  {
    assert Seen(weights, names[..0]) == map[];
  }

  lemma TallyOne(weights: map<string, nat>, names: seq<string>, k: nat, items: seq<string>, total: int)
    requires Sorted(names) && k < |names| && Tallied(weights, names, k, items, total)
    ensures names[k] in weights ==> Tallied(weights, names, k + 1, items + [names[k]], total + weights[names[k]])
    ensures names[k] !in weights ==> Tallied(weights, names, k + 1, items, total)
  {
    hide Sum, Less;
    SeenOneMore(weights, names, k);
    assert names[..k + 1] == names[..k] + [names[k]];
    if names[k] in weights {
      forall i | 0 <= i < |items| ensures Less(items[i], names[k]) {
        assert items[i] in items && items[i] in names[..k];
      }
    }
  }

  lemma TallyAll(weights: map<string, nat>, names: seq<string>, items: seq<string>, total: int)
    requires Tallied(weights, names, |names|, items, total)
    requires forall n :: n in weights ==> n in names
    ensures Sorted(items) && (forall n :: n in items <==> n in weights)
    ensures |items| == |weights| && total == Sum(weights)
  {
    assert names[..|names|] == names;
    SeenAll(weights, names);
  }

  lemma SeenAll(weights: map<string, nat>, names: seq<string>)
    requires forall n :: n in weights ==> n in names
    ensures Seen(weights, names) == weights
  {
  }

  // -------------------------------------------------------- what methods keep

  /** The entry is a valid item within its time to live. */
  predicate Keeps(u: Setup, name: string, entry: Entry, now: int) {
    && IsItemName(name)
    && ReadEnvelope(u, entry).Some?
    && !PastTtl(u, ReadEnvelope(u, entry).value.created, now)
  }

  /** The directory without what a cleanup takes out. */
  function Kept(u: Setup, pending: map<string, Entry>, now: int): map<string, Entry> {
    map name | name in pending && Keeps(u, name, pending[name], now) :: pending[name]
  }

  predicate IsDue(u: Setup, name: string, entry: Entry, now: int) {
    Keeps(u, name, entry, now) && ReadEnvelope(u, entry).value.nextAt <= now
  }

  /** What a cleanup keeps, and what is due: intact items within their time, whose
      gate has been passed. */
  lemma KeptAndDue(u: Setup, pending: map<string, Entry>, now: int, name: string)
    ensures name in Kept(u, pending, now) <==>
              && name in pending && IsItemName(name)
              && exists e :: Intact(u, pending[name], e) && now < e.created + u.limits.ttl
    ensures name in pending ==>
              (IsDue(u, name, pending[name], now) <==>
                 && IsItemName(name)
                 && exists e :: Intact(u, pending[name], e) && e.nextAt <= now < e.created + u.limits.ttl)
    ensures name in Kept(u, pending, now) ==> Kept(u, pending, now)[name] == pending[name]
  {
    hide Intact, ReadEnvelope, HasSuffix;
    if name in pending {
      forall e ensures ReadEnvelope(u, pending[name]) == Some(e) <==> Intact(u, pending[name], e) {
        ReadIffIntact(u, pending[name], e);
      }
      if ReadEnvelope(u, pending[name]).Some? {
        var e := ReadEnvelope(u, pending[name]).value;
        assert Intact(u, pending[name], e);
      }
    }
  }

  predicate IsAck(e: Event) {
    e.Remove? && e.why.ByAck?
  }

  /** `later` goes on from `earlier` without acknowledging anything. */
  ghost predicate NoAckSince(earlier: seq<Event>, later: seq<Event>) {
    earlier <= later && forall i :: |earlier| <= i < |later| ==> !IsAck(later[i])
  }

  lemma OneMoreNoAck(run: seq<Event>, e: Event)
    requires !IsAck(e)
    ensures NoAckSince(run, run) && NoAckSince(run, run + [e])
  {
  }

  /** Such changes leave the acknowledged items as they were. */
  lemma {:induction false} NoAckLedger(u: Setup, origin: Store, earlier: seq<Event>, later: seq<Event>, id: string)
    requires Legal(u, origin, later) && NoAckSince(earlier, later)
    requires id in Replay(u, origin, later).ledger && Replay(u, origin, later).ledger[id].Acked?
    ensures id in Replay(u, origin, earlier).ledger && Replay(u, origin, earlier).ledger[id].Acked?
  {
    if later != earlier {
      var shorter, e := later[..|later| - 1], later[|later| - 1];
      assert !IsAck(e);
      var s := Replay(u, origin, shorter);
      assert Enabled(u, s, e);
      NoAckLedger(u, origin, earlier, shorter, id);
    }
  }

  /** `items` are the files of `q` in order and `total` is their size. */
  ghost predicate Listed(q: map<string, Entry>, items: seq<string>, total: int) {
    && Sorted(items)
    && (forall n :: n in items <==> n in QuarantineWeights(q))
    && |items| == |QuarantineWeights(q)|
    && total == Sum(QuarantineWeights(q))
  }

  /** `after` is `before` without its first files by name, `evicted`, and with
      the last of them still in place `incoming` bytes would not have fitted. */
  ghost predicate PrunedPrefix(l: Limits, before: map<string, Entry>, after: map<string, Entry>,
                               evicted: set<string>, incoming: nat) {
    && evicted <= QuarantineWeights(before).Keys
    && after == before - evicted
    && (forall e, f :: e in evicted && f in QuarantineWeights(after) ==> Less(e, f))
    && (evicted != {} ==> exists last :: LastEvicted(l, before, evicted, last, incoming))
  }

  ghost predicate LastEvicted(l: Limits, before: map<string, Entry>, evicted: set<string>, last: string, incoming: nat) {
    && last in evicted
    && (forall e :: e in evicted ==> e == last || Less(e, last))
    && var put := QuarantineWeights(before - (evicted - {last}));
       |put| + 1 > l.maxQuarantineItems || Sum(put) + incoming > l.maxQuarantineBytes
  }

  lemma EvictEnabled(u: Setup, s: Store, file: string)
    requires file in QuarantineWeights(s.quarantine)
    ensures Enabled(u, s, Evict(file))
    ensures Apply(u, s, Evict(file)).pending == s.pending
    ensures Apply(u, s, Evict(file)).quarantine == s.quarantine - {file}
    ensures Apply(u, s, Evict(file)).births == s.births
  {
  }

  lemma RoomByList(l: Limits, q: map<string, Entry>, items: seq<string>, total: int, incoming: nat)
    requires Listed(q, items, total)
    ensures Fits(l, q, incoming) <==> |items| + 1 <= l.maxQuarantineItems && total + incoming <= l.maxQuarantineBytes
    ensures items == [] && ValidLimits(l) && incoming <= l.maxQuarantineBytes ==> Fits(l, q, incoming)
  {
    assert |QuarantineWeights(q)| == 0 ==> QuarantineWeights(q) == map[];
  }

  lemma PrunedNothing(l: Limits, q: map<string, Entry>, incoming: nat)
    ensures PrunedPrefix(l, q, q, {}, incoming)
  {
    assert q - {} == q;
  }

  lemma ListedTail(q: map<string, Entry>, items: seq<string>, total: int)
    requires items != [] && Listed(q, items, total)
    ensures items[0] in QuarantineWeights(q) && items[0] in q
    ensures Listed(q - {items[0]}, items[1..], total - Size(q[items[0]]))
    ensures QuarantineWeights(q - {items[0]}) == QuarantineWeights(q) - {items[0]}
    ensures forall f :: f in QuarantineWeights(q - {items[0]}) ==> Less(items[0], f)
  {
    hide Sum, Less, Size;
    var first, w := items[0], QuarantineWeights(q);
    assert first in items;
    assert QuarantineWeights(q - {first}) == w - {first};
    SumTake(w, first);
    assert |w - {first}| == |w| - 1;
    LessIrreflexive(first);
    forall n ensures n in items[1..] <==> n in w - {first} {
      assert n in items <==> n == first || n in items[1..];
    }
    forall f | f in w - {first} ensures Less(first, f) {
      assert f in items[1..];
    }
  }

  /** Taking out the first file while there is no room makes the evicted prefix
      one longer. */
  lemma PrunedMore(l: Limits, before: map<string, Entry>, q: map<string, Entry>, evicted: set<string>,
                   first: string, incoming: nat)
    requires PrunedPrefix(l, before, q, evicted, incoming)
    requires first in QuarantineWeights(q) && !Fits(l, q, incoming)
    requires QuarantineWeights(q - {first}) == QuarantineWeights(q) - {first}
    requires forall f :: f in QuarantineWeights(q - {first}) ==> Less(first, f)
    ensures PrunedPrefix(l, before, q - {first}, evicted + {first}, incoming)
  {
    hide Less, Fits, Sum, QuarantineWeights, LastEvicted;
    assert before - (evicted + {first}) == q - {first};
    InWeights(before, evicted, first);
    FirstIsLast(l, before, q, evicted, first, incoming);
    assert LastEvicted(l, before, evicted + {first}, first, incoming);
  }

  lemma FirstIsLast(l: Limits, before: map<string, Entry>, q: map<string, Entry>, evicted: set<string>, first: string, incoming: nat)
    requires PrunedPrefix(l, before, q, evicted, incoming) && first in QuarantineWeights(q) && !Fits(l, q, incoming)
    ensures LastEvicted(l, before, evicted + {first}, first, incoming)
  {
    hide Less, Sum, QuarantineWeights;
    assert first !in evicted by { InWeights(before, evicted, first); }
    assert (evicted + {first}) - {first} == evicted;
  }

  lemma InWeights(before: map<string, Entry>, evicted: set<string>, file: string)
    requires file in QuarantineWeights(before - evicted)
    ensures file !in evicted && file in QuarantineWeights(before)
  {
  }

  lemma DueIsItem(u: Setup, name: string, entry: Entry, now: int)
    requires IsDue(u, name, entry, now)
    ensures IsItemName(name)
  {
  }

  lemma SortedDistinct(names: seq<string>)
    requires Sorted(names)
    ensures forall i, j :: 0 <= i < j < |names| ==> names[i] != names[j]
  {
    forall i, j | 0 <= i < j < |names| ensures names[i] != names[j] {
      LessIrreflexive(names[i]);
    }
  }

  datatype NextResult = ReadFailed | Nothing | Found(id: string, item: Item)

  predicate ValidId(id: string) {
    && id != "" && id != "." && id != ".."
    && '/' !in id && '\\' !in id
    && !EndsInJson(id)
  }

  predicate EndsInJson(id: string) {
    |id| >= 5 && LowersToJson(id[|id| - 5..])
  }

  predicate LowersToJson(s: string)
    requires |s| == 5
  {
    && s[0] == '.' && (s[1] == 'j' || s[1] == 'J') && (s[2] == 's' || s[2] == 'S')
    && (s[3] == 'o' || s[3] == 'O') && (s[4] == 'n' || s[4] == 'N')
  }

  /** Lower-cased as far as ASCII goes. */
  function Lowered(s: string): (r: string)
    ensures |r| == |s|
  {
    seq(|s|, i requires 0 <= i < |s| => if 'A' <= s[i] <= 'Z' then (s[i] as int + 32) as char else s[i])
  }

  /** Only ids that name a file of the directory itself are taken, and none that
      already ends like one. */
  lemma ValidIdIff(id: string)
    ensures ValidId(id) <==>
              && id !in {"", ".", ".."}
              && (forall i :: 0 <= i < |id| ==> id[i] != '/' && id[i] != '\\')
              && (|id| >= 5 ==> Lowered(id)[|id| - 5..] != ".json")
  {
    if |id| >= 5 {
      var end, low := id[|id| - 5..], Lowered(id)[|id| - 5..];
      assert forall i :: 0 <= i < 5 ==> low[i] == if 'A' <= end[i] <= 'Z' then (end[i] as int + 32) as char else end[i];
      assert low == ".json" <==> low[0] == '.' && low[1] == 'j' && low[2] == 's' && low[3] == 'o' && low[4] == 'n';
    }
  }

  // -------------------------------------------------------------- cleaning up

  /** What is in `after` was in `before`, and of the names gone through only what
      a cleanup keeps; if `exact`, nothing else has gone. */
  ghost predicate CleanedSo(u: Setup, before: map<string, Entry>, after: map<string, Entry>, names: seq<string>, now: int,
                            exact: bool) {
    && (forall n :: n in after ==> n in before && after[n] == before[n])
    && (forall n :: n in names && n in after ==> Keeps(u, n, after[n], now))
    && (exact ==> forall n :: n in before && (n !in names || Keeps(u, n, before[n], now)) ==> n in after)
  }

  lemma CleanedNone(u: Setup, before: map<string, Entry>, now: int)
    ensures CleanedSo(u, before, before, [], now, true)
  {
  }

  lemma CleanedOneMore(u: Setup, before: map<string, Entry>, pending: map<string, Entry>, after: map<string, Entry>,
                       names: seq<string>, name: string, now: int, exact: bool, stillExact: bool, ok: bool)
    requires CleanedSo(u, before, pending, names, now, exact) && (stillExact ==> exact)
    requires after == pending || after == pending - {name}
    requires ok && name in after ==> Keeps(u, name, after[name], now)
    requires stillExact && name in pending ==> (name in after <==> Keeps(u, name, pending[name], now))
    ensures ok ==> CleanedSo(u, before, after, names + [name], now, stillExact)
    ensures forall n :: n in after ==> n in before && after[n] == before[n]
  {
    hide Keeps;
  }

  lemma CleanedAll(u: Setup, before: map<string, Entry>, after: map<string, Entry>, names: seq<string>, now: int, exact: bool)
    requires CleanedSo(u, before, after, names, now, exact)
    requires forall n :: n in names <==> n in before
    ensures forall n :: n in after ==> n in before && after[n] == before[n] && Keeps(u, n, after[n], now)
    ensures exact ==> after == Kept(u, before, now)
  {
    hide Keeps;
  }

  // ------------------------------------------------------------- storing

  /** What may be stored under an id: nothing has used it. */
  ghost predicate FreshId(s: Store, id: string) {
    && id !in s.ledger
    && FileName(id) !in s.pending
    && forall file :: file in s.quarantine ==> Base(file) != FileName(id)
  }

  lemma StillFresh(s: Store, t: Store, id: string)
    requires FreshId(s, id)
    requires t.ledger.Keys == s.ledger.Keys
    requires forall n :: n in t.pending ==> n in s.pending
    requires forall file :: file in t.quarantine ==> file in s.quarantine || Base(file) in s.pending
    ensures FreshId(t, id)
  {
    hide Base, FileName;
  }

  function NewItem(now: int, body: string): Item {
    Item(now, 0, now, body)
  }

  /** An item of `size` bytes passes the capacity and free-space checks. The
      free-space sum is a uint64. */
  ghost predicate HasRoom(l: Limits, pending: map<string, Entry>, size: nat, free: nat) {
    && size <= l.maxItemBytes
    && |PendingWeights(pending)| < l.maxPendingItems
    && Sum(PendingWeights(pending)) + size <= l.maxPendingBytes
    && free >= (l.minFreeBytes + size) % 0x1_0000_0000_0000_0000
  }

  /** Enqueue stores exactly when its checks pass. */
  ghost predicate Accepts(u: Setup, pending: map<string, Entry>, rounds: seq<ProbeRound>, now: int, free: nat) {
    && Reportable(rounds)
    && HasRoom(u.limits, Kept(u, pending, now), |Encode(u, NewItem(now, BatchBody(u.codec, rounds)))|, free)
  }

  /** In plain numbers: the rounds agree on a version that is not negative; what a
      cleanup leaves is fewer items than allowed; with the new file they keep the
      byte limit; the file keeps the item limit; and the disk has that much more
      than it must keep free, in 64 bits. */
  lemma AcceptsIff(u: Setup, pending: map<string, Entry>, rounds: seq<ProbeRound>, now: int, free: nat, size: nat)
    requires rounds != [] ==> size == |Encode(u, NewItem(now, BatchBody(u.codec, rounds)))|
    ensures Accepts(u, pending, rounds, now, free) <==>
              var kept := Kept(u, pending, now);
              && rounds != [] && rounds[0].configVersion >= 0
              && (forall i :: 0 <= i < |rounds| ==> rounds[i].configVersion == rounds[0].configVersion)
              && size <= u.limits.maxItemBytes
              && |kept| + 1 <= u.limits.maxPendingItems
              && TotalSize(kept) + size <= u.limits.maxPendingBytes
              && (u.limits.minFreeBytes + size) % 0x1_0000_0000_0000_0000 <= free
  {
    KeptWeights(u, pending, now);
    hide Encode, Kept, Sum, PendingWeights, BatchBody;
  }

  /** The bytes of some files. */
  ghost function TotalSize(files: map<string, Entry>): nat {
    Sum(map name | name in files :: Size(files[name]))
  }

  lemma KeptWeights(u: Setup, pending: map<string, Entry>, now: int)
    ensures var kept := Kept(u, pending, now);
            |PendingWeights(kept)| == |kept| && Sum(PendingWeights(kept)) == TotalSize(kept)
  {
    hide ReadEnvelope, HasSuffix, PastTtl;
    var kept := Kept(u, pending, now);
    forall name | name in kept ensures !kept[name].Directory? && IsItemName(name) {
      KeptIsFile(u, name, kept[name], now);
    }
    assert PendingWeights(kept) == map name | name in kept :: Size(kept[name]);
    assert PendingWeights(kept).Keys == kept.Keys;
    assert |PendingWeights(kept)| == |PendingWeights(kept).Keys| && |kept| == |kept.Keys|;
  }

  lemma KeptIsFile(u: Setup, name: string, entry: Entry, now: int)
    requires Keeps(u, name, entry, now)
    ensures entry.File? && IsItemName(name)
  {
  }

  lemma PersistEnabled(u: Setup, s: Store, now: int, random: string, temp: string, rounds: seq<ProbeRound>, free: nat)
    requires ValidSetup(u) && Reportable(rounds) && 0 < now <= MAX_INT64
    requires IsRandom(random) && IsTempName(temp) && FreshId(s, MakeId(now, random))
    requires HasRoom(u.limits, s.pending, |Encode(u, NewItem(now, BatchBody(u.codec, rounds)))|, free)
    ensures Enabled(u, s, Persist(temp, random, NewItem(now, BatchBody(u.codec, rounds))))
  {
    hide MakeId, Sum, PendingWeights, Encode, FileName;
    assert Payloads(rounds) != [];
    assert u.codec.compact(BatchBody(u.codec, rounds)) == BatchBody(u.codec, rounds);
  }

  lemma PersistShape(u: Setup, s: Store, e: Event)
    requires e.Persist?
    ensures var id := MakeId(e.item.created, e.random);
            && Apply(u, s, e).pending == (s.pending - {e.temp})[FileName(id) := File(Encode(u, e.item))]
            && Apply(u, s, e).quarantine == s.quarantine
            && Apply(u, s, e).ledger == s.ledger[id := Pending]
            && Apply(u, s, e).births == s.births[id := Birth(e.item.created, e.random, e.item.body)]
  {
  }

  lemma PersistIsNew(u: Setup, s: Store, e: Event)
    requires e.Persist? && Enabled(u, s, e)
    ensures MakeId(e.item.created, e.random) !in s.ledger
  {
  }

  datatype EnqueueResult = Refused | Stored(id: string)

  // --------------------------------------------------------- atomic writing

  /** The change that ends an atomic write: the temporary file takes the place
      of the item. */
  predicate EndsWrite(e: Event) {
    e.Persist? || e.Rewrite?
  }

  function TempOf(e: Event): string
    requires EndsWrite(e)
  {
    e.temp
  }

  function WithTemp(s: Store, temp: string, content: string): Store {
    s.(pending := s.pending[temp := File(content)])
  }

  lemma TempWeighsNothing(pending: map<string, Entry>, temp: string, content: string)
    requires IsTempName(temp)
    ensures PendingWeights(pending[temp := File(content)]) == PendingWeights(pending)
  {
    TempIsNoItem(temp);
    hide HasSuffix;
  }

  lemma WriteNeedsTemp(u: Setup, s: Store, e: Event)
    requires EndsWrite(e) && Enabled(u, s, e)
    ensures IsTempName(TempOf(e))
  {
  }

  /** A temporary file beside the items changes neither whether a write is
      possible nor what it leaves. */
  lemma TempInvisible(u: Setup, s: Store, temp: string, content: string, e: Event)
    requires EndsWrite(e) && Enabled(u, s, e) && TempOf(e) == temp && temp !in s.pending
    ensures Enabled(u, WithTemp(s, temp, content), e)
    ensures Apply(u, WithTemp(s, temp, content), e) == Apply(u, s, e)
  {
    hide HasSuffix, Encode, MakeId, ReadEnvelope, Rewritten, Sum;
    TempWeighsNothing(s.pending, temp, content);
    TempIsNoItem(temp);
    assert s.pending[temp := File(content)] - {temp} == s.pending - {temp};
  }

  /** What a write that stopped half way may leave: nothing, or a temporary
      file. */
  ghost predicate AtMostTemp(s: Store, t: Store, temp: string) {
    t == s || exists content :: t == WithTemp(s, temp, content)
  }

  lemma TempKeepsBooks(s: Store, t: Store, temp: string)
    requires AtMostTemp(s, t, temp)
    ensures t.births == s.births && t.ledger == s.ledger && t.quarantine == s.quarantine
  {
  }

  lemma TempTwice(s: Store, temp: string, before: string, after: string)
    ensures WithTemp(WithTemp(s, temp, before), temp, after) == WithTemp(s, temp, after)
  {
  }

  lemma TempDropped(s: Store, temp: string, content: string)
    requires temp !in s.pending
    ensures WithTemp(s, temp, content).pending - {temp} == s.pending
    ensures WithTemp(s, temp, content).(pending := s.pending) == s
    ensures s.pending - {temp} == s.pending
  {
  }

  lemma MoveShape(u: Setup, s: Store, name: string, reason: string)
    requires name in s.pending && s.pending[name].File? && Fits(u.limits, s.quarantine, Size(s.pending[name]))
    requires QuarantineName(name, reason) in s.quarantine ==> !s.quarantine[QuarantineName(name, reason)].Directory?
    ensures Enabled(u, s, Move(name, reason)) && Base(QuarantineName(name, reason)) == name
    ensures var t := Apply(u, s, Move(name, reason));
            && t.pending == s.pending - {name} && t.births == s.births
            && t.quarantine == s.quarantine[QuarantineName(name, reason) := s.pending[name]]
  {
    hide LastItem, Sum;
    BaseDropsReason(name, CleanReason(reason));
  }

  // ------------------------------------------------------------ system calls

  /** What a method can ask of the system. `RenameSync` is the sync of the
      directory that ends an atomic write. */
  datatype SysCall =
    | Listing | Lookup | Reading | Removal | DirectorySync | MoveAway | ModeChange
    | Creation | Writing | FileSync | Closing | Renaming | RenameSync
    | Space | Randomness

  /** How many calls were made, how many of them renamed a temporary file to an
      item, and what the last one was and did. */
  datatype CallLog = CallLog(calls: nat, renames: nat, last: SysCall, worked: bool)

  class ProbeSpool {
    const u: Setup
    /** Whether the n-th call works, if it is of that kind. */
    const works: (nat, SysCall) -> bool
    var io: CallLog
    var pending: map<string, Entry>
    var quarantine: map<string, Entry>
    /** The one-token notification channel holds its token. */
    var notify: bool

    ghost var ledger: map<string, Fate>
    ghost var births: map<string, Birth>
    ghost const origin: Store
    ghost var run: seq<Event>
    /** How many file-system calls have failed so far. */
    ghost var faults: nat

    ghost function Now(): Store
      reads this
    {
      Store(pending, quarantine, ledger, births)
    }

    /** The directories are what a legal run of changes made of the ones the
        spool was opened on, whose books were right. */
    ghost predicate Valid()
      reads this
    {
      && ValidSetup(u)
      && Sound(u, origin)
      && Legal(u, origin, run)
      && Now() == Replay(u, origin, run)
    }

    /** The books are right now. */
    lemma NowSound()
      requires Valid()
      ensures Sound(u, Now())
      ensures ledger.Keys == births.Keys
    {
      RunSound(u, origin, run);
    }

    /** Opens directories as a previous process, or nobody, left them. */
    constructor (u: Setup, works: (nat, SysCall) -> bool, pending: map<string, Entry>, quarantine: map<string, Entry>,
                 ghost ledger: map<string, Fate>, ghost births: map<string, Birth>)
      requires ValidSetup(u)
      requires Sound(u, Store(pending, quarantine, ledger, births))
      ensures Valid() && this.u == u && this.works == works && run == [] && !notify && faults == 0 && io.renames == 0
      ensures Now() == origin == Store(pending, quarantine, ledger, births)
    {
      this.u := u;
      this.works := works;
      io := CallLog(0, 0, Listing, true);
      this.pending, this.quarantine := pending, quarantine;
      this.ledger, this.births := ledger, births;
      origin := Store(pending, quarantine, ledger, births);
      run := [];
      notify := false;
      faults := 0;
    }

    /** No call fails, but for the sync that ends an atomic write. */
    ghost predicate OnlyRenameSyncFails() {
      forall n: nat, c: SysCall :: c.RenameSync? || works(n, c)
    }

    ghost predicate RenameSyncFails() {
      forall n: nat :: !works(n, RenameSync)
    }

    /** One call: it works or it does not. */
    method Call(c: SysCall) returns (done: bool)
      modifies this`io, this`faults
      ensures faults >= old(faults)
      ensures done <==> faults == old(faults)
      ensures !done ==> faults == old(faults) + 1
      ensures io.last == c && io.worked == done
      ensures io.renames == old(io.renames) + (if c.Renaming? && done then 1 else 0)
      ensures OnlyRenameSyncFails() && !c.RenameSync? ==> done
      ensures RenameSyncFails() && c.RenameSync? ==> !done
    {
      done := works(io.calls, c);
      io := CallLog(io.calls + 1, io.renames + (if c.Renaming? && done then 1 else 0), c, done);
      if !done {
        faults := faults + 1;
      }
    }

    /** One change to the directories, entered in the books. */
    method Commit(p: map<string, Entry>, q: map<string, Entry>, ghost e: Event)
      requires Valid() && Enabled(u, Now(), e)
      requires p == Apply(u, Now(), e).pending && q == Apply(u, Now(), e).quarantine
      modifies this`pending, this`quarantine, this`ledger, this`births, this`run
      ensures Valid() && run == old(run) + [e]
      ensures Now() == Apply(u, old(Now()), e)
    {
      hide Sound, Enabled, Apply;
      ghost var next := Apply(u, Now(), e);
      assert (run + [e])[..|run|] == run;
      pending, quarantine := p, q;
      ledger, births := next.ledger, next.births;
      run := run + [e];
    }

    method Signal()
      modifies this`notify
      ensures notify
    {
      notify := true;
    }

    method ReadDir(entries: map<string, Entry>) returns (ok: bool, names: seq<string>)
      modifies this`io, this`faults
      ensures faults >= old(faults) && (ok <==> faults == old(faults)) && io.renames == old(io.renames)
      ensures OnlyRenameSyncFails() ==> ok
      ensures Sorted(names)
      ensures ok ==> forall n :: n in names <==> n in entries
      ensures !ok ==> names == []
    {
      ok := Call(Listing);
      names := [];
      if ok {
        names := SortNames(entries.Keys);
      }
    }

    /** readEnvelopeLocked; a file that cannot be read counts as invalid. */
    method ReadFile(name: string) returns (r: Option<Envelope>)
      modifies this`io, this`faults
      ensures faults >= old(faults) && io.renames == old(io.renames)
      ensures faults == old(faults) ==> r == if name in pending then ReadEnvelope(u, pending[name]) else None
      ensures faults != old(faults) ==> r == None
    {
      var done := Call(Reading);
      if !done || name !in pending {
        return None;
      }
      return ReadEnvelope(u, pending[name]);
    }

    method RemoveFileAndSync(name: string, ghost why: Why) returns (ok: bool)
      requires Valid()
      requires name in pending ==> Enabled(u, Now(), Remove(name, why))
      modifies this
      ensures Valid() && faults >= old(faults) && io.renames == old(io.renames) && (ok <==> faults == old(faults))
      ensures notify == old(notify) && quarantine == old(quarantine)
      ensures run == old(run)
              || (name in old(pending) && run == old(run) + [Remove(name, why)]
                  && Now() == Apply(u, old(Now()), Remove(name, why)))
      ensures run == old(run) ==> Now() == old(Now())
      ensures ok ==> name !in pending
      ensures pending == old(pending) || pending == old(pending) - {name}
    {
      hide Sound, Enabled;
      ok := Call(Removal);
      if !ok { return; }
      if name in pending {
        Commit(pending - {name}, quarantine, Remove(name, why));
      }
      ok := Call(DirectorySync);
    }

    /** The quarantine's files in order of their names, and their bytes. */
    method ListQuarantine() returns (ok: bool, items: seq<string>, total: int)
      modifies this`io, this`faults
      ensures faults >= old(faults) && (ok <==> faults == old(faults)) && io.renames == old(io.renames)
      ensures OnlyRenameSyncFails() ==> ok
      ensures ok ==> Listed(quarantine, items, total)
    {
      hide Tallied, Sum;
      var names;
      items, total := [], 0;
      ok, names := ReadDir(quarantine);
      if !ok { return; }
      ghost var weights := QuarantineWeights(quarantine);
      TallyNone(weights, names);
      for k := 0 to |names|
        invariant faults == old(faults) && ok && total >= 0 && io.renames == old(io.renames)
        invariant Tallied(weights, names, k, items, total)
      {
        TallyOne(weights, names, k, items, total);
        var n := names[k];
        if !quarantine[n].Directory? {
          ok := Call(Lookup);
          if !ok { return; }
          items := items + [n];
          total := total + Size(quarantine[n]);
        }
      }
      TallyAll(weights, names, items, total);
    }

    /** Evicts the oldest quarantine files, in order of their names, until one
        more file of `incoming` bytes fits: the shortest prefix that makes
        room. */
    method PruneQuarantine(incoming: nat) returns (ok: bool, ghost evicted: set<string>)
      requires Valid()
      modifies this
      ensures Valid() && faults >= old(faults) && io.renames == old(io.renames) && (ok <==> faults == old(faults))
      ensures notify == old(notify) && pending == old(pending)
      ensures NoAckSince(old(run), run) && births == old(births)
      ensures quarantine.Keys <= old(quarantine).Keys
      ensures PrunedPrefix(u.limits, old(quarantine), quarantine, evicted, incoming)
      ensures ok && incoming <= u.limits.maxQuarantineBytes ==> Fits(u.limits, quarantine, incoming)
    {
      hide Sound, Enabled, Apply, Sum, Less, QuarantineWeights, Replay, Legal, Listed, PrunedPrefix, Fits;
      evicted := {};
      var items, total;
      PrunedNothing(u.limits, quarantine, incoming);
      ok, items, total := ListQuarantine();
      if !ok { return; }
      while |items| + 1 > u.limits.maxQuarantineItems || total + incoming > u.limits.maxQuarantineBytes
        invariant Valid() && faults == old(faults) && notify == old(notify) && pending == old(pending) && ok
        invariant io.renames == old(io.renames)
        invariant NoAckSince(old(run), run) && births == old(births)
        invariant Listed(quarantine, items, total) && quarantine.Keys <= old(quarantine).Keys
        invariant PrunedPrefix(u.limits, old(quarantine), quarantine, evicted, incoming)
        decreases |items|
      {
        if |items| == 0 {
          break;
        }
        var oldest := items[0];
        ok := Call(Removal);
        if !ok { return; }
        RoomByList(u.limits, quarantine, items, total, incoming);
        ListedTail(quarantine, items, total);
        PrunedMore(u.limits, old(quarantine), quarantine, evicted, oldest, incoming);
        EvictEnabled(u, Now(), oldest);
        total := total - Size(quarantine[oldest]);
        Commit(pending, quarantine - {oldest}, Evict(oldest));
        evicted := evicted + {oldest};
        items := items[1..];
      }
      RoomByList(u.limits, quarantine, items, total, incoming);
      ok := Call(DirectorySync);
    }

    /** The rename into the quarantine, which has room for the file, and what
        makes it durable. */
    method MoveToQuarantine(name: string, reason: string) returns (ok: bool)
      requires Valid() && name in pending && pending[name].File?
      requires Fits(u.limits, quarantine, Size(pending[name]))
      modifies this
      ensures Valid() && faults >= old(faults) && io.renames == old(io.renames) && (ok <==> faults == old(faults))
      ensures notify == old(notify) && NoAckSince(old(run), run) && births == old(births)
      ensures pending == old(pending) || pending == old(pending) - {name}
      ensures forall file :: file in quarantine ==> file in old(quarantine) || Base(file) == name
      ensures ok ==>
                && pending == old(pending) - {name}
                && QuarantineBounded(u.limits, quarantine)
                && QuarantineName(name, reason) in quarantine
                && quarantine[QuarantineName(name, reason)] == old(pending[name])
    {
      hide Sound, Replay, Legal, Fits, QuarantineBounded, Apply, Enabled, QuarantineName, Base, NoAckSince;
      var destination := QuarantineName(name, reason);
      OneMoreNoAck(run, Move(name, reason));
      ok := Call(MoveAway);
      if !ok { return; }
      if destination in quarantine && quarantine[destination].Directory? {
        // A file cannot be renamed over a directory.
        ok, faults := false, faults + 1;
        return;
      }
      MoveShape(u, Now(), name, reason);
      MoveBounded(u, Now(), Move(name, reason));
      Commit(pending - {name}, quarantine[destination := pending[name]], Move(name, reason));
      ok := Call(ModeChange);
      if !ok { return; }
      ok := Call(DirectorySync);  // of the pending directory
      if !ok { return; }
      ok := Call(DirectorySync);  // of the quarantine directory
    }

    /** Removes what is no regular file. */
    method ClearEntry(name: string) returns (ok: bool)
      requires Valid() && name in pending && !pending[name].File?
      modifies this
      ensures Valid() && faults >= old(faults) && io.renames == old(io.renames) && (ok <==> faults == old(faults))
      ensures notify == old(notify) && NoAckSince(old(run), run) && births == old(births) && quarantine == old(quarantine)
      ensures pending == old(pending) || pending == old(pending) - {name}
      ensures ok ==> pending == old(pending) - {name}
    {
      hide Sound, Replay, Legal, FateAfter, ReadEnvelope;
      ok := Call(Removal);
      if !ok { return; }
      Commit(pending - {name}, quarantine, Remove(name, ByClearing));
      ok := Call(DirectorySync);
    }

    /** Moves a pending file into the quarantine, which has made room for it; a
        file too large for the quarantine and anything that is not a regular
        file is removed instead. */
    method QuarantinePath(name: string, reason: string) returns (ok: bool)
      requires Valid()
      modifies this
      ensures Valid() && faults >= old(faults) && io.renames == old(io.renames) && (ok <==> faults == old(faults))
      ensures notify == old(notify) && NoAckSince(old(run), run) && births == old(births)
      ensures pending == old(pending) || pending == old(pending) - {name}
      ensures ok ==> pending == old(pending) - {name}
      ensures forall file :: file in quarantine ==> file in old(quarantine) || (Base(file) == name && name in old(pending))
      ensures ok && name in old(pending) ==>
                match old(pending[name])
                case File(content) =>
                  if |content| > u.limits.maxQuarantineBytes then quarantine == old(quarantine)
                  else QuarantineBounded(u.limits, quarantine)
                       && QuarantineName(name, reason) in quarantine
                       && quarantine[QuarantineName(name, reason)] == old(pending[name])
                case _ => quarantine == old(quarantine)
    {
      hide Sound, Replay, Legal, PrunedPrefix, Less, Fits, QuarantineBounded, QuarantineName, Base;
      ok := Call(Lookup);
      if !ok || name !in pending { return; }
      if !pending[name].File? {
        ok := ClearEntry(name);
        return;
      }
      if Size(pending[name]) > u.limits.maxQuarantineBytes {
        ok := RemoveFileAndSync(name, ByOversize);
        return;
      }
      ghost var evicted;
      ok, evicted := PruneQuarantine(Size(pending[name]));
      if !ok { return; }
      ok := MoveToQuarantine(name, reason);
    }

    /** The body of the cleanup loop: the entry stays if it is a valid item
        within its time to live, and goes otherwise. */
    method CleanupEntry(name: string, now: int) returns (ok: bool)
      requires Valid()
      modifies this
      ensures Valid() && faults >= old(faults) && io.renames == old(io.renames) && (!ok ==> faults > old(faults))
      ensures notify == old(notify) && NoAckSince(old(run), run) && births == old(births)
      ensures pending == old(pending) || pending == old(pending) - {name}
      ensures forall file :: file in quarantine ==> file in old(quarantine) || (Base(file) == name && name in old(pending))
      ensures ok && name in pending ==> Keeps(u, name, pending[name], now)
      ensures faults == old(faults) && name in old(pending) ==>
                (name in pending <==> Keeps(u, name, old(pending[name]), now))
    {
      hide Sound, Replay, Legal, QuarantineName, QuarantineBounded, HasSuffix;
      if name in pending && (pending[name].Directory? || !IsItemName(name)) {
        ok := QuarantinePath(name, "unexpected");
        return;
      }
      var read := ReadFile(name);
      if read.None? {
        ok := QuarantinePath(name, "invalid");
      } else if PastTtl(u, read.value.created, now) {
        ok := RemoveFileAndSync(name, ByAge(now));
      } else {
        ok := true;
      }
    }

    /** Takes out of the pending directory whatever is not a valid item within
        its time to live. */
    method CleanupPending(now: int) returns (ok: bool)
      requires Valid()
      modifies this
      ensures Valid() && faults >= old(faults) && io.renames == old(io.renames) && (!ok ==> faults > old(faults))
      ensures notify == old(notify) && NoAckSince(old(run), run) && births == old(births)
      ensures forall n :: n in pending ==> n in old(pending) && pending[n] == old(pending)[n]
      ensures forall file :: file in quarantine ==> file in old(quarantine) || Base(file) in old(pending)
      ensures ok ==> forall n :: n in pending ==> Keeps(u, n, pending[n], now)
      ensures faults == old(faults) ==> pending == Kept(u, old(pending), now)
      ensures OnlyRenameSyncFails() && old(pending) == map[] ==> faults == old(faults)
    {
      hide Sound, Replay, Legal, Keeps, Kept, CleanedSo, Base, OnlyRenameSyncFails;
      var names;
      ok, names := ReadDir(pending);
      if !ok { return; }
      assert old(pending) == map[] ==> names == [] by {
        if names != [] { assert names[0] in names; }
      }
      CleanedNone(u, pending, now);
      for k := 0 to |names|
        invariant Valid() && faults >= old(faults) && ok && io.renames == old(io.renames)
        invariant OnlyRenameSyncFails() && old(pending) == map[] ==> faults == old(faults)
        invariant notify == old(notify) && NoAckSince(old(run), run) && births == old(births)
        invariant CleanedSo(u, old(pending), pending, names[..k], now, faults == old(faults))
        invariant forall file :: file in quarantine ==> file in old(quarantine) || Base(file) in old(pending)
      {
        ghost var before, exact := pending, faults == old(faults);
        ok := CleanupEntry(names[k], now);
        CleanedOneMore(u, old(pending), before, pending, names[..k], names[k], now, exact, faults == old(faults), ok);
        assert names[..k + 1] == names[..k] + [names[k]];
        if !ok { return; }
      }
      assert names[..|names|] == names;
      CleanedAll(u, old(pending), pending, names, now, faults == old(faults));
    }

    /** The size of the pending directory as the capacity check measures it. */
    method PendingUsage() returns (ok: bool, count: int, total: int)
      modifies this`io, this`faults
      ensures faults >= old(faults) && (ok <==> faults == old(faults)) && io.renames == old(io.renames)
      ensures OnlyRenameSyncFails() ==> ok
      ensures ok ==> count == |PendingWeights(pending)| && total == Sum(PendingWeights(pending))
    {
      hide Tallied, Sum;
      var names;
      count, total := 0, 0;
      ok, names := ReadDir(pending);
      if !ok { return; }
      ghost var weights, items := PendingWeights(pending), [];
      TallyNone(weights, names);
      for k := 0 to |names|
        invariant faults == old(faults) && ok && count == |items| && io.renames == old(io.renames)
        invariant Tallied(weights, names, k, items, total)
      {
        TallyOne(weights, names, k, items, total);
        var n := names[k];
        if !pending[n].Directory? && IsItemName(n) {
          ok := Call(Lookup);
          if !ok { return; }
          items := items + [n];
          count := count + 1;
          total := total + Size(pending[n]);
        }
      }
      TallyAll(weights, names, items, total);
    }

    /** The deferred removal of the temporary file `temp` from what was `s`
        before. */
    method DropTemp(temp: string, ghost s: Store, ghost content: string)
      requires Valid() && IsTempName(temp) && temp !in s.pending
      requires Now() == WithTemp(s, temp, content)
      modifies this
      ensures Valid() && faults >= old(faults) && io.renames == old(io.renames) && notify == old(notify) && NoAckSince(old(run), run)
      ensures AtMostTemp(s, Now(), temp)
    {
      hide Sound, Replay, Legal, ReadEnvelope;
      var done := Call(Removal);
      if done {
        TempIsNoItem(temp);
        TempDropped(s, temp, content);
        Commit(pending - {temp}, quarantine, Remove(temp, ByClearing));
      }
    }

    method PutTemp(temp: string, content: string)
      requires Valid() && IsTempName(temp)
      modifies this
      ensures Valid() && faults == old(faults) && notify == old(notify) && NoAckSince(old(run), run) && io == old(io)
      ensures Now() == WithTemp(old(Now()), temp, content)
    {
      hide Sound, Replay, Legal;
      Commit(pending[temp := File(content)], quarantine, WriteTemp(temp, content));
    }

    /** Chmod, write, sync and close of the new temporary file. */
    method FillTemp(content: string, temp: string, partial: string, ghost s: Store)
      returns (ok: bool, ghost written: string)
      requires Valid() && IsTempName(temp) && Now() == WithTemp(s, temp, "")
      modifies this
      ensures Valid() && faults >= old(faults) && io.renames == old(io.renames) && (ok <==> faults == old(faults))
      ensures OnlyRenameSyncFails() ==> ok
      ensures notify == old(notify) && NoAckSince(old(run), run)
      ensures Now() == WithTemp(s, temp, written) && (ok ==> written == content)
    {
      hide Sound, Replay, Legal, WithTemp, IsTempName;
      written := "";
      ok := Call(ModeChange);
      if !ok { return; }
      ok := Call(Writing);
      written := if ok then content else partial;
      TempTwice(s, temp, "", written);
      PutTemp(temp, if ok then content else partial);
      if !ok { return; }
      ok := Call(FileSync);
      if !ok { return; }
      ok := Call(Closing);
    }

    /** Create, chmod, write, sync and close. */
    method WriteTempFile(content: string, temp: string, partial: string) returns (ok: bool)
      requires Valid() && IsTempName(temp) && temp !in pending
      modifies this
      ensures Valid() && faults >= old(faults) && io.renames == old(io.renames) && (ok <==> faults == old(faults))
      ensures OnlyRenameSyncFails() ==> ok
      ensures notify == old(notify) && NoAckSince(old(run), run)
      ensures ok ==> Now() == WithTemp(old(Now()), temp, content)
      ensures !ok ==> AtMostTemp(old(Now()), Now(), temp)
    {
      hide Sound, Replay, Legal, WithTemp, IsTempName;
      ghost var s, written := Now(), "";
      ok := Call(Creation);
      if !ok { return; }
      PutTemp(temp, "");
      ok, written := FillTemp(content, temp, partial, s);
      if !ok {
        DropTemp(temp, s, written);
      }
    }

    /** The temporary file has taken the name of the item. */
    method CommitWrite(name: string, content: string, temp: string, ghost s: Store, ghost e: Event)
      requires Valid() && EndsWrite(e) && Enabled(u, s, e)
      requires TempOf(e) == temp && temp !in s.pending && Now() == WithTemp(s, temp, content)
      requires Apply(u, s, e).pending == (s.pending - {temp})[name := File(content)]
      requires Apply(u, s, e).quarantine == quarantine
      modifies this`pending, this`quarantine, this`ledger, this`births, this`run
      ensures Valid() && NoAckSince(old(run), run) && Now() == Apply(u, s, e)
    {
      hide Sound, Replay, Legal, Enabled, Apply, HasSuffix, WithTemp, IsTempName, TempOf, NoAckSince;
      TempInvisible(u, s, temp, content, e);
      TempDropped(s, temp, content);
      OneMoreNoAck(run, e);
      assert pending - {temp} == s.pending - {temp};
      Commit((pending - {temp})[name := File(content)], quarantine, e);
    }

    /** Puts the written temporary file in the place of the item, which is the
        change `e` of what was `s` before the file was there. */
    method ReplaceByTemp(name: string, content: string, temp: string, ghost s: Store, ghost e: Event)
      returns (ok: bool, ghost renamed: bool)
      requires Valid() && EndsWrite(e) && Enabled(u, s, e)
      requires TempOf(e) == temp && temp !in s.pending && Now() == WithTemp(s, temp, content)
      requires Apply(u, s, e).pending == (s.pending - {temp})[name := File(content)]
      requires Apply(u, s, e).quarantine == quarantine
      modifies this
      ensures Valid() && faults >= old(faults) && (ok <==> faults == old(faults))
      ensures notify == old(notify) && NoAckSince(old(run), run)
      ensures io.renames == old(io.renames) + (if renamed then 1 else 0)
      ensures renamed ==> io.last.RenameSync? && io.worked == ok && faults <= old(faults) + 1
      ensures ok || OnlyRenameSyncFails() ==> renamed
      ensures RenameSyncFails() ==> !ok
      ensures renamed ==> Now() == Apply(u, s, e)
      ensures !renamed ==> AtMostTemp(s, Now(), temp)
    {
      hide Sound, Replay, Legal, Enabled, Apply, HasSuffix, WithTemp, IsTempName, OnlyRenameSyncFails, RenameSyncFails,
           TempOf, AtMostTemp, NoAckSince;
      renamed := false;
      WriteNeedsTemp(u, s, e);
      OneMoreNoAck(run, e);
      ok := Call(Renaming);
      if !ok {
        DropTemp(temp, s, content);
        return;
      }
      renamed := true;
      CommitWrite(name, content, temp, s, e);
      ok := Call(RenameSync);
    }

    /** Writes `content` to `name` through a temporary file, which is the change
        `e`. Whatever fails, the items are either as before or as after `e`, and
        after `e` for certain when the write reports success. A failure after
        the rename, and that is one of the directory sync, leaves the new item in
        place. `partial` is what a failing write manages to write. */
    method AtomicWrite(name: string, content: string, temp: string, partial: string, ghost e: Event)
      returns (ok: bool, ghost renamed: bool)
      requires Valid() && EndsWrite(e) && Enabled(u, Now(), e)
      requires TempOf(e) == temp && temp !in pending
      requires Apply(u, Now(), e).pending == (pending - {temp})[name := File(content)]
      requires Apply(u, Now(), e).quarantine == quarantine
      modifies this
      ensures Valid() && faults >= old(faults) && (ok <==> faults == old(faults))
      ensures notify == old(notify) && NoAckSince(old(run), run)
      ensures io.renames == old(io.renames) + (if renamed then 1 else 0)
      ensures renamed ==> io.last.RenameSync? && io.worked == ok && faults <= old(faults) + 1
      ensures ok || OnlyRenameSyncFails() ==> renamed
      ensures RenameSyncFails() ==> !ok
      ensures renamed ==> Now() == Apply(u, old(Now()), e)
      ensures !renamed ==> AtMostTemp(old(Now()), Now(), temp)
    {
      hide Sound, Replay, Legal, Enabled, Apply, AtMostTemp, IsTempName, OnlyRenameSyncFails;
      renamed := false;
      ghost var s := Now();
      WriteNeedsTemp(u, s, e);
      ok := WriteTempFile(content, temp, partial);
      if !ok { return; }
      ok, renamed := ReplaceByTemp(name, content, temp, s, e);
    }

    /** The item, capacity and free-space checks. */
    method CheckRoom(size: nat, free: nat) returns (ok: bool, fits: bool)
      modifies this`io, this`faults
      ensures faults >= old(faults) && io.renames == old(io.renames)
      ensures OnlyRenameSyncFails() ==> faults == old(faults)
      ensures faults == old(faults) ==> ok && (fits <==> HasRoom(u.limits, pending, size, free))
      ensures ok && fits ==> faults == old(faults)
    {
      hide Sum, PendingWeights;
      fits := false;
      if size > u.limits.maxItemBytes {
        return true, false;
      }
      var count, totalBytes;
      ok, count, totalBytes := PendingUsage();
      if !ok { return; }
      if count >= u.limits.maxPendingItems || totalBytes + size > u.limits.maxPendingBytes { return; }
      ok := Call(Space);  // free space
      if !ok { return; }
      fits := free >= (u.limits.minFreeBytes + size) % 0x1_0000_0000_0000_0000;
    }

    /** Writes the file of a new item. */
    method PutItem(item: Item, random: string, temp: string, partial: string) returns (ok: bool)
      requires Valid() && Enabled(u, Now(), Persist(temp, random, item)) && temp !in pending
      modifies this
      ensures Valid() && faults >= old(faults) && (ok <==> faults == old(faults))
      ensures notify == old(notify) && NoAckSince(old(run), run)
      ensures io.renames == old(io.renames) + (if births != old(births) then 1 else 0)
      ensures births != old(births) ==> io.last.RenameSync? && io.worked == ok && faults <= old(faults) + 1
      ensures ok || OnlyRenameSyncFails() ==> births != old(births)
      ensures RenameSyncFails() ==> !ok
      ensures births != old(births) ==>
                var id := MakeId(item.created, random);
                && births == old(births)[id := Birth(item.created, random, item.body)]
                && id in ledger && ledger[id].Pending?
                && pending == old(pending)[FileName(id) := File(Encode(u, item))]
    {
      hide Sound, Replay, Legal, Enabled, Encode, MakeId, FileName, Apply, OnlyRenameSyncFails, RenameSyncFails, IsTempName;
      ghost var e, s := Persist(temp, random, item), Now();
      NowSound();
      PersistShape(u, s, e);
      PersistIsNew(u, s, e);
      assert s.pending - {temp} == s.pending;
      ghost var renamed;
      ok, renamed := AtomicWrite(FileName(MakeId(item.created, random)), Encode(u, item), temp, partial, e);
      if !renamed {
        TempKeepsBooks(s, Now(), temp);
      }
    }

    /** Everything Enqueue does before it writes: the cleanup, the checks and the
        random bytes of the id. */
    method Admit(size: nat, now: int, free: nat) returns (ok: bool)
      requires Valid()
      modifies this
      ensures Valid() && faults >= old(faults) && io.renames == old(io.renames)
      ensures notify == old(notify) && NoAckSince(old(run), run) && births == old(births)
      ensures forall n :: n in pending ==> n in old(pending)
      ensures forall file :: file in quarantine ==> file in old(quarantine) || Base(file) in old(pending)
      ensures ok ==> HasRoom(u.limits, pending, size, free)
      ensures faults == old(faults) ==>
                pending == Kept(u, old(pending), now) && (ok <==> HasRoom(u.limits, pending, size, free))
      ensures OnlyRenameSyncFails() && old(pending) == map[] ==> faults == old(faults)
    {
      hide Sound, Replay, Legal, Keeps, Kept, HasRoom, OnlyRenameSyncFails, Base;
      ok := CleanupPending(now);
      if !ok { return; }
      var fits;
      ok, fits := CheckRoom(size, free);
      if !ok || !fits { return false; }
      ok := Call(Randomness);
    }

    /** The calls that failed since `faultsBefore`, not counting the sync that
        ended the write if there was one since `renamesBefore`. */
    ghost function EarlyFaults(faultsBefore: nat, renamesBefore: nat): int
      reads this
    {
      faults - faultsBefore - (if io.renames > renamesBefore && !io.worked then 1 else 0)
    }

    /** Stores one batch. `random` are the random digits of the new id, `temp`
        the name the system gives the temporary file, `free` the free bytes it
        reports. That no id comes twice is assumed, not checked. */
    method Enqueue(rounds: seq<ProbeRound>, now: int, random: string, temp: string, partial: string, free: nat)
      returns (r: EnqueueResult)
      requires Valid() && 0 < now <= MAX_INT64
      requires IsRandom(random) && FreshId(Now(), MakeId(now, random))
      requires IsTempName(temp) && temp !in pending
      modifies this
      ensures Valid() && faults >= old(faults) && NoAckSince(old(run), run)
      // The item is there exactly if its file was renamed, and the caller is
      // told so exactly if the directory was synced after that.
      ensures io.renames == old(io.renames) + (if births != old(births) then 1 else 0)
      ensures births != old(births) ==> io.last.RenameSync?
      ensures r.Stored? <==> births != old(births) && io.worked
      ensures births != old(births) ==>
                && Reportable(rounds)
                && births == old(births)[MakeId(now, random) := Birth(now, random, BatchBody(u.codec, rounds))]
                && MakeId(now, random) in ledger && ledger[MakeId(now, random)].Pending?
      // What is stored under the new id reports the rounds.
      ensures births != old(births) ==>
                && births.Keys == old(births).Keys + {MakeId(now, random)}
                && exists p :: Reports(p, rounds) && births[MakeId(now, random)].body == u.codec.marshal(p)
      ensures r.Stored? ==> r.id == MakeId(now, random) && notify
      ensures r.Refused? ==> notify == old(notify)
      // If no call failed before that sync, the checks alone decide.
      ensures EarlyFaults(old(faults), old(io.renames)) >= 0
      ensures EarlyFaults(old(faults), old(io.renames)) == 0 ==>
                && (births != old(births) <==> Accepts(u, old(pending), rounds, now, free))
                && if births != old(births) then
                     pending == Kept(u, old(pending), now)[FileName(MakeId(now, random)) :=
                                  File(Encode(u, NewItem(now, BatchBody(u.codec, rounds))))]
                   else pending == old(pending) || pending == Kept(u, old(pending), now)
      ensures OnlyRenameSyncFails() && old(pending) == map[] ==> EarlyFaults(old(faults), old(io.renames)) == 0
      ensures RenameSyncFails() ==> r.Refused?
    {
      hide Sound, Replay, Legal, Enabled, Encode, HasRoom, MakeId, Keeps, BatchBody, FreshId, FileName, Apply,
           OnlyRenameSyncFails, IsRandom, IsTempName, Reports;
      var body := MarshalProbeResults(u.codec, rounds);
      if body.None? { return Refused; }
      NowSound();
      var encoded := Encode(u, NewItem(now, body.value));
      var ok := Admit(|encoded|, now, free);
      if !ok { return Refused; }
      NowSound();
      var item := NewItem(now, body.value);
      ghost var s := Now();
      StillFresh(old(Now()), s, MakeId(now, random));
      PersistEnabled(u, s, now, random, temp, rounds, free);
      ok := PutItem(item, random, temp, partial);
      if !ok { return Refused; }
      Signal();
      return Stored(MakeId(now, random));
    }

    /** One turn of the scan: skip, quarantine, or take. After a cleanup only a
        failing read makes it quarantine anything, and the second check of the
        time to live never fires. */
    method NextEntry(name: string, now: int) returns (ok: bool, taken: Option<Item>)
      requires Valid()
      requires name in pending && Keeps(u, name, pending[name], now)
      modifies this
      ensures Valid() && faults >= old(faults) && NoAckSince(old(run), run)
      ensures notify == old(notify) && births == old(births)
      ensures pending == old(pending) || pending == old(pending) - {name}
      ensures !ok ==> faults > old(faults)
      ensures taken.Some? ==>
                && pending == old(pending) && IsDue(u, name, pending[name], now)
                && taken.value == ItemOf(ReadEnvelope(u, pending[name]).value)
      ensures faults == old(faults) ==>
                pending == old(pending) && (taken.Some? <==> IsDue(u, name, pending[name], now))
    {
      hide Sound, Replay, Legal, HasSuffix, QuarantineBounded, QuarantineName;
      ok, taken := true, None;
      if pending[name].Directory? || !IsItemName(name) {
        return;
      }
      var read := ReadFile(name);
      if read.None? {
        ok := QuarantinePath(name, "invalid");
        return;
      }
      if PastTtl(u, read.value.created, now) {
        assert false;
      }
      if read.value.nextAt > now {
        return;
      }
      taken := Some(ItemOf(read.value));
    }

    /** The oldest due item: of the valid, unexpired items whose time has come
        the one with the least file name, or nothing exactly if there is none. */
    method Next(now: int) returns (r: NextResult)
      requires Valid()
      modifies this
      ensures Valid() && faults >= old(faults) && NoAckSince(old(run), run)
      ensures notify == old(notify) && births == old(births)
      ensures forall n :: n in pending ==> n in old(pending) && pending[n] == old(pending)[n]
      ensures r.ReadFailed? ==> faults > old(faults)
      ensures r.Found? ==>
                && FileName(r.id) in pending && IsDue(u, FileName(r.id), pending[FileName(r.id)], now)
                && r.item == ItemOf(ReadEnvelope(u, pending[FileName(r.id)]).value)
      ensures faults == old(faults) ==>
                && pending == Kept(u, old(pending), now)
                && (r.Nothing? <==> forall n :: n in pending ==> !IsDue(u, n, pending[n], now))
                && (r.Found? ==> forall n :: n in pending && IsDue(u, n, pending[n], now) ==>
                                   n == FileName(r.id) || Less(FileName(r.id), n))
    {
      hide Sound, Replay, Legal, ReadEnvelope, Keeps, Less, HasSuffix, IsDue, FileName, Kept, OnlyRenameSyncFails, Base;
      var ok := CleanupPending(now);
      if !ok { return ReadFailed; }
      var names;
      ok, names := ReadDir(pending);
      if !ok { return ReadFailed; }
      SortedDistinct(names);
      ghost var cleaned := pending;
      for k := 0 to |names|
        invariant Valid() && faults >= old(faults) && NoAckSince(old(run), run)
        invariant notify == old(notify) && births == old(births)
        invariant forall n :: n in pending ==> n in cleaned && pending[n] == cleaned[n]
        invariant forall i :: k <= i < |names| ==> names[i] in pending
        invariant faults == old(faults) ==>
                    && pending == cleaned == Kept(u, old(pending), now)
                    && forall i :: 0 <= i < k ==> !IsDue(u, names[i], pending[names[i]], now)
      {
        var name, taken := names[k], None;
        ok, taken := NextEntry(name, now);
        if !ok { return ReadFailed; }
        if taken.Some? {
          DueIsItem(u, name, pending[name], now);
          r := Found(IdOf(name), taken.value);
          forall n | n in pending && IsDue(u, n, pending[n], now) && faults == old(faults)
            ensures n == name || Less(name, n)
          {
            var j :| 0 <= j < |names| && names[j] == n;
            assert j >= k;
          }
          return;
        }
      }
      r := Nothing;
    }

    /** Writes the attempt counter and the retry gate over an item. */
    method ScheduleRetry(id: string, attempt: int, nextAt: Option<int>, temp: string, partial: string)
      returns (ok: bool)
      requires Valid() && 0 <= attempt <= MAX_UINT32
      requires nextAt.Some? ==> 0 < nextAt.value <= MAX_INT64
      requires IsTempName(temp) && temp !in pending
      modifies this
      ensures Valid() && faults >= old(faults) && NoAckSince(old(run), run)
      ensures births == old(births) && ledger == old(ledger) && quarantine == old(quarantine)
      ensures faults == old(faults) ==>
                (ok <==> && ValidId(id) && FileName(id) in old(pending) && nextAt.Some?
                         && ReadEnvelope(u, old(pending)[FileName(id)]).Some?
                         && |Rewritten(u, old(pending)[FileName(id)], attempt, nextAt.value)| <= u.limits.maxItemBytes)
      ensures ok ==> faults == old(faults) && notify
      ensures ok ==> pending == old(pending)[FileName(id) := File(Rewritten(u, old(pending)[FileName(id)], attempt, nextAt.value))]
      ensures !ok ==> notify == old(notify)
      ensures !ok && faults == old(faults) ==> pending == old(pending)
      ensures FileName(id) !in old(pending) ==> !ok && pending == old(pending)
    {
      hide Sound, Replay, Legal, ReadEnvelope, Rewritten, HasSuffix, ValidId;
      if !ValidId(id) { return false; }
      var name := FileName(id);
      var read := ReadFile(name);
      if read.None? || nextAt.None? { return false; }
      var encoded := Rewritten(u, pending[name], attempt, nextAt.value);
      if |encoded| > u.limits.maxItemBytes { return false; }
      ghost var e, s := Rewrite(temp, name, attempt, nextAt.value), Now();
      RewriteShape(u, s, e);
      assert pending - {temp} == pending;
      ghost var renamed;
      ok, renamed := AtomicWrite(name, encoded, temp, partial, e);
      if !ok {
        if !renamed { TempKeepsBooks(s, Now(), temp); }
        return;
      }
      Signal();
    }

    /** Removes an accepted item. */
    method Ack(id: string) returns (ok: bool)
      requires Valid()
      modifies this
      ensures Valid() && faults >= old(faults)
      ensures births == old(births) && quarantine == old(quarantine) && notify == old(notify)
      ensures run == old(run) || run == old(run) + [Remove(FileName(id), ByAck)]
      ensures run == old(run) ==> Now() == old(Now())
      ensures run != old(run) ==> FileName(id) in old(pending) && Now() == Apply(u, old(Now()), Remove(FileName(id), ByAck))
      ensures faults == old(faults) ==> (ok <==> ValidId(id))
      ensures ok ==> pending == old(pending) - {FileName(id)}
    {
      hide Sound, Replay, Legal, HasSuffix, ValidId;
      if !ValidId(id) { return false; }
      ok := RemoveFileAndSync(FileName(id), ByAck);
    }

    /** Moves a rejected item, its exact bytes, into the quarantine. */
    method Quarantine(id: string, reason: string) returns (ok: bool)
      requires Valid()
      modifies this
      ensures Valid() && faults >= old(faults) && NoAckSince(old(run), run)
      ensures births == old(births) && notify == old(notify)
      ensures pending == old(pending) || pending == old(pending) - {FileName(id)}
      ensures faults == old(faults) ==> (ok <==> ValidId(id))
      ensures ok ==> pending == old(pending) - {FileName(id)}
      ensures ok && FileName(id) in old(pending) && old(pending)[FileName(id)].File?
              && Size(old(pending)[FileName(id)]) <= u.limits.maxQuarantineBytes ==>
                && QuarantineName(FileName(id), reason) in quarantine
                && quarantine[QuarantineName(FileName(id), reason)] == old(pending)[FileName(id)]
                && QuarantineBounded(u.limits, quarantine)
    {
      hide Sound, Replay, Legal, ValidId, QuarantineBounded;
      if !ValidId(id) { return false; }
      ok := QuarantinePath(FileName(id), reason);
    }
  }
  /** An error of Enqueue that stores: with any batch the checks accept, in an
      empty spool, when of all calls only the last sync fails. */
  method ErrorYetStored(u: Setup, rounds: seq<ProbeRound>, now: int, random: string, temp: string, free: nat)
    returns (spool: ProbeSpool, r: EnqueueResult)
    requires ValidSetup(u) && 0 < now <= MAX_INT64 && IsRandom(random) && IsTempName(temp)
    requires Accepts(u, map[], rounds, now, free)
    ensures fresh(spool) && spool.Valid() && spool.u == u
    ensures r.Refused? && !spool.notify
    ensures spool.pending == map[FileName(MakeId(now, random)) := File(Encode(u, NewItem(now, BatchBody(u.codec, rounds))))]
    ensures MakeId(now, random) in spool.ledger && spool.ledger[MakeId(now, random)].Pending?
  {
    hide Accepts, MakeId, FileName, Encode, IsRandom, IsTempName;
    EmptySound(u);
    EmptyKept(u, now);
    spool := new ProbeSpool(u, (n: nat, c: SysCall) => !c.RenameSync?, map[], map[], map[], map[]);
    r := spool.Enqueue(rounds, now, random, temp, "", free);
  }

  lemma EmptyKept(u: Setup, now: int)
    ensures Kept(u, map[], now) == map[]
  {
  }
}
