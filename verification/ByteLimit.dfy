/** Two items that together fill the spool outgrow its byte limit at the tenth
    retry (internal/agent/probe_spool.go). */
module ByteLimit {
  import opened Text
  import opened Envelopes
  import opened Sums
  import opened SpoolModel
  import opened SpoolRuns

  lemma PendingWeightsAdd(pending: map<string, Entry>, name: string, content: string)
    requires IsItemName(name) && name !in pending
    ensures |PendingWeights(pending[name := File(content)])| == |PendingWeights(pending)| + 1
    ensures Sum(PendingWeights(pending[name := File(content)])) == Sum(PendingWeights(pending)) + |content|
  {
    PendingWeightsPut(pending, name, content);
    hide PendingWeights, HasSuffix, Sum;
    SumPut(PendingWeights(pending), name, |content|);
  }

  lemma PendingWeightsPut(pending: map<string, Entry>, name: string, content: string)
    requires IsItemName(name)
    ensures PendingWeights(pending[name := File(content)]) == PendingWeights(pending)[name := |content|]
    ensures name in PendingWeights(pending) ==> name in pending
  {
    hide HasSuffix;
  }

  /** What storing an item in the queue does to it. */
  lemma PersistGrows(u: Setup, s: Store, e: Event)
    requires ValidSetup(u) && e.Persist? && Enabled(u, s, e) && e.temp !in s.pending
    ensures var id, t := MakeId(e.item.created, e.random), Apply(u, s, e);
            && t.pending == s.pending[FileName(id) := File(Encode(u, e.item))]
            && t.ledger == s.ledger[id := Pending] && t.quarantine == s.quarantine
            && ReadEnvelope(u, t.pending[FileName(id)]) == Some(Seal(u, e.item))
            && |PendingWeights(t.pending)| == |PendingWeights(s.pending)| + 1
            && Sum(PendingWeights(t.pending)) == Sum(PendingWeights(s.pending)) + |Encode(u, e.item)|
  {
    hide PendingWeights, Encode, HasSuffix, MakeId, Seal, ReadEnvelope, Sum, FileName;
    WrittenReadsBack(u, e.item);
    assert s.pending - {e.temp} == s.pending;
    PendingWeightsAdd(s.pending, FileName(MakeId(e.item.created, e.random)), Encode(u, e.item));
  }

  const Temp := TEMP_PREFIX + TEMP_SUFFIX

  /** The first `k` retries of an item, each gating it at the same time. */
  function Retries(name: string, nextAt: int, k: nat): seq<Event> {
    if k == 0 then [] else Retries(name, nextAt, k - 1) + [Rewrite(Temp, name, k, nextAt)]
  }

  function TwoStored(item: Item): seq<Event> {
    [Persist(Temp, Fixed(0, RANDOM_HEX), item), Persist(Temp, Fixed(1, RANDOM_HEX), item)]
  }

  /** Ten retries of the earlier of two items that together fill the spool. */
  function OverfullRun(item: Item): seq<Event> {
    TwoStored(item) + Retries(FileName(MakeId(item.created, Fixed(0, RANDOM_HEX))), item.created, 10)
  }

  lemma RandomDigits(n: nat)
    ensures IsRandom(Fixed(n, RANDOM_HEX))
  {
  }

  lemma OverfullIds(created: int)
    requires 0 < created
    ensures MakeId(created, Fixed(0, RANDOM_HEX)) != MakeId(created, Fixed(1, RANDOM_HEX))
  {
    var a, b := MakeId(created, Fixed(0, RANDOM_HEX)), MakeId(created, Fixed(1, RANDOM_HEX));
    assert a[|a| - 1] == '0' && b[|b| - 1] == '1';
  }

  lemma TempNameExists()
    ensures IsTempName(Temp)
  {
    assert Temp[|TEMP_PREFIX|..] == TEMP_SUFFIX;
  }

  ghost predicate Overfull(u: Setup, run: seq<Event>) {
    ValidSetup(u) && Legal(u, Empty, run) && Sum(PendingWeights(Replay(u, Empty, run).pending)) > u.limits.maxPendingBytes
  }

  lemma OneMoreEvent(u: Setup, run: seq<Event>, e: Event)
    requires Legal(u, Empty, run) && Enabled(u, Replay(u, Empty, run), e)
    ensures Legal(u, Empty, run + [e]) && Replay(u, Empty, run + [e]) == Apply(u, Replay(u, Empty, run), e)
  {
    hide Enabled, Apply;
    assert (run + [e])[..|run|] == run;
  }

  lemma RunOfTwo(u: Setup, a: Event, b: Event)
    requires Enabled(u, Empty, a) && Enabled(u, Apply(u, Empty, a), b)
    ensures Legal(u, Empty, [a, b]) && Replay(u, Empty, [a, b]) == Apply(u, Apply(u, Empty, a), b)
  {
    hide Enabled, Apply;
    assert [] + [a] == [a] && [a] + [b] == [a, b];
    OneMoreEvent(u, [], a);
    OneMoreEvent(u, [a], b);
  }

  /** So the byte limit is exceeded in some runs, at whatever time: two items
      fill the spool, and with the tenth retry of one the second digit of its
      attempt counter comes on top. */
  lemma ByteLimitCanBeExceeded(codec: Codec, batch: Payload, created: int, ttl: int)
    requires Faithful(codec) && batch.rounds != [] && 0 < created <= MAX_INT64 && ttl > 0
    ensures exists u: Setup :: u.codec == codec && u.limits.ttl == ttl
              && Overfull(u, OverfullRun(Item(created, 0, created, codec.marshal(batch))))
  {
    var item := Item(created, 0, created, codec.marshal(batch));
    var n := |Encode(Setup(codec, Limits(1, 2, 1, 1, 0, 1, 1)), item)|;
    var u := Setup(codec, Limits(ttl, 2, 2 * n, n + 1, 0, 1, 1));
    OverfullByTwo(u, item, n);
  }

  /** Storing is possible while there is room, in a store without a quarantine. */
  lemma PersistEnabled(u: Setup, s: Store, item: Item, n: nat)
    requires 0 < item.created && item.attempt == 0 && item.nextAt == item.created && Storable(u, item)
    requires s.quarantine == map[] && MakeId(item.created, Fixed(n, RANDOM_HEX)) !in s.ledger
    requires FileName(MakeId(item.created, Fixed(n, RANDOM_HEX))) !in s.pending
    requires |PendingWeights(s.pending)| < u.limits.maxPendingItems
    requires Sum(PendingWeights(s.pending)) + |Encode(u, item)| <= u.limits.maxPendingBytes
    ensures Enabled(u, s, Persist(Temp, Fixed(n, RANDOM_HEX), item))
  {
    hide PendingWeights, Encode, MakeId, Sum, FileName, Storable;
    TempNameExists();
    RandomDigits(n);
  }

  /** Two items fill the spool to the byte. */
  lemma FullByTwo(u: Setup, item: Item, n: nat, e1: Event, e2: Event, s1: Store, s2: Store)
    requires ValidSetup(u) && 0 < item.created <= MAX_INT64 && item.attempt == 0 && item.nextAt == item.created
    requires Storable(u, item) && n == |Encode(u, item)|
    requires u.limits.maxPendingItems == 2 && u.limits.maxPendingBytes == 2 * n
    requires e1 == Persist(Temp, Fixed(0, RANDOM_HEX), item) && s1 == Apply(u, Empty, e1)
    requires e2 == Persist(Temp, Fixed(1, RANDOM_HEX), item) && s2 == Apply(u, s1, e2)
    ensures Enabled(u, Empty, e1) && Enabled(u, s1, e2)
    ensures var id := MakeId(item.created, Fixed(0, RANDOM_HEX));
            && FileName(id) in s2.pending && ReadEnvelope(u, s2.pending[FileName(id)]) == Some(Seal(u, item))
            && id in s2.ledger && s2.ledger[id].Pending? && Sum(PendingWeights(s2.pending)) == 2 * n
  {
    hide *;
    var id, id2 := MakeId(item.created, Fixed(0, RANDOM_HEX)), MakeId(item.created, Fixed(1, RANDOM_HEX));
    OverfullIds(item.created);
    IdOfFileName(id);
    IdOfFileName(id2);
    TempNameExists();
    TempIsNoItem(Temp);
    EmptyWeights();
    PersistEnabled(u, Empty, item, 0);
    PersistGrows(u, Empty, e1);
    assert s1.ledger == map[id := Pending] && s1.pending == map[FileName(id) := File(Encode(u, item))];
    PersistEnabled(u, s1, item, 1);
    PersistGrows(u, s1, e2);
  }

  lemma OneDigit(k: nat)
    requires k <= 10
    ensures |Number(k)| == if k < 10 then 1 else 2
  {
  }

  /** The item after its k-th retry. */
  function After(item: Item, k: nat): Item {
    item.(attempt := k)
  }

  lemma StillStorable(u: Setup, item: Item, k: nat)
    requires item.attempt == 0 && k <= 10 && Storable(u, item) && |Encode(u, item)| < u.limits.maxItemBytes
    ensures Storable(u, After(item, k)) && |Encode(u, After(item, k))| == |Encode(u, item)| + |Number(k)| - 1
  {
    OneDigit(0);
    OneDigit(k);
    hide Number, Digits;
    RenderLength(Seal(u, item), k, item.nextAt);
  }

  lemma RewrittenIs(u: Setup, entry: Entry, item: Item, k: nat, next: nat)
    requires ReadEnvelope(u, entry) == Some(Seal(u, After(item, k))) && u.codec.compact(item.body) == item.body
    ensures Rewritten(u, entry, next, item.nextAt) == Encode(u, After(item, next))
  {
    hide Render, ReadEnvelope;
  }

  /** One retry of an item as the one before left it. */
  lemma OneRetry(u: Setup, s: Store, item: Item, id: string, k: nat)
    requires ValidSetup(u) && Sound(u, s) && Owned(s, FileName(id)) && FileName(id) in s.pending
    requires ReadEnvelope(u, s.pending[FileName(id)]) == Some(Seal(u, After(item, k)))
    requires item.attempt == 0 && k < 10 && Storable(u, item) && |Encode(u, item)| < u.limits.maxItemBytes
    ensures var e := Rewrite(Temp, FileName(id), k + 1, item.nextAt);
            && Enabled(u, s, e)
            && Owned(Apply(u, s, e), FileName(id)) && FileName(id) in Apply(u, s, e).pending
            && ReadEnvelope(u, Apply(u, s, e).pending[FileName(id)]) == Some(Seal(u, After(item, k + 1)))
            && Sum(PendingWeights(Apply(u, s, e).pending)) == Sum(PendingWeights(s.pending)) + |Number(k + 1)| - |Number(k)|
  {
    var e := Rewrite(Temp, FileName(id), k + 1, item.nextAt);
    TempNameExists();
    StillStorable(u, item, k + 1);
    OneDigit(k + 1);
    RewrittenIs(u, s.pending[FileName(id)], item, k, k + 1);
    WrittenReadsBack(u, After(item, k + 1));
    hide Sound, Number, Encode, ReadEnvelope, Rewritten, HasSuffix, IsTempName, FileName, PendingWeights, Sum, Faithful;
    assert Enabled(u, s, e);
    RewriteShape(u, s, e);
    RewriteWeight(u, s, e);
  }

  lemma {:induction false} AfterRetries(u: Setup, base: seq<Event>, item: Item, id: string, k: nat)
    requires ValidSetup(u) && Legal(u, Empty, base) && k <= 10
    requires item.attempt == 0 && Storable(u, item) && |Encode(u, item)| < u.limits.maxItemBytes
    requires var s := Replay(u, Empty, base);
             && Owned(s, FileName(id)) && FileName(id) in s.pending
             && ReadEnvelope(u, s.pending[FileName(id)]) == Some(Seal(u, item))
    ensures var run := base + Retries(FileName(id), item.nextAt, k);
            var s := Replay(u, Empty, run);
            && Legal(u, Empty, run)
            && Owned(s, FileName(id)) && FileName(id) in s.pending
            && ReadEnvelope(u, s.pending[FileName(id)]) == Some(Seal(u, After(item, k)))
            && Sum(PendingWeights(s.pending)) == Sum(PendingWeights(Replay(u, Empty, base).pending)) + |Number(k)| - 1
  {
    hide Legal, Replay, Sound, Number, Encode, ReadEnvelope, HasSuffix, FileName, PendingWeights, Sum, Seal, Enabled, Apply,
         Storable, Owned;
    OneDigit(0);
    if k == 0 {
      assert base + [] == base;
      assert After(item, 0) == item;
    } else {
      AfterRetries(u, base, item, id, k - 1);
      var run := base + Retries(FileName(id), item.nextAt, k - 1);
      var e := Rewrite(Temp, FileName(id), k, item.nextAt);
      EmptySound(u);
      RunSound(u, Empty, run);
      OneRetry(u, Replay(u, Empty, run), item, id, k - 1);
      OneMoreEvent(u, run, e);
      assert run + [e] == base + Retries(FileName(id), item.nextAt, k);
    }
  }

  lemma OverfullByTwo(u: Setup, item: Item, n: nat)
    requires ValidSetup(u) && 0 < item.created <= MAX_INT64 && item.attempt == 0 && item.nextAt == item.created
    requires Storable(u, item) && n == |Encode(u, item)|
    requires u.limits.maxPendingItems == 2 && u.limits.maxPendingBytes == 2 * n && u.limits.maxItemBytes == n + 1
    ensures Overfull(u, OverfullRun(item))
  {
    hide PendingWeights, Encode, HasSuffix, MakeId, Seal, ReadEnvelope, Sum, Fixed, Legal, Replay, Apply, FileName, Enabled,
         Faithful, Storable, Number, Retries;
    var two := TwoStored(item);
    var id := MakeId(item.created, Fixed(0, RANDOM_HEX));
    var s1 := Apply(u, Empty, two[0]);
    FullByTwo(u, item, n, two[0], two[1], s1, Apply(u, s1, two[1]));
    RunOfTwo(u, two[0], two[1]);
    IdOfFileName(id);
    AfterRetries(u, two, item, id, 10);
    OneDigit(10);
  }

  lemma EmptyWeights()
    ensures Empty == Store(map[], map[], map[], map[])
    ensures PendingWeights(map[]) == map[] && Sum(map[]) == 0
  {
  }
}
