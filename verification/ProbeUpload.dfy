/** Uploading the oldest due batch, and draining the spool
    (internal/agent/probe_uploader.go). */
module ProbeUpload {
  import opened Text
  import opened Envelopes
  import opened Sums
  import opened RetryDelay
  import opened SpoolModel
  import opened SpoolRuns
  import opened ProbeRounds
  import opened ProbeSpoolStore

  // ----------------------------------------------------------------- replies

  /** What became of one POST: the transport failed, perhaps because the caller
      cancelled it, or the Controller answered. */
  datatype Reply =
    | TransportError(cancelled: bool, timedOut: bool)
    | Response(status: int, retryAfter: string, code: string)

  predicate Is2xx(status: int) {
    200 <= status < 300
  }

  predicate IsRetryableStatus(status: int) {
    status == 408 || status == 429 || 500 <= status <= 599
  }

  datatype Verdict = Cancel | Accept | Retry(header: string, status: int) | Reject(reason: string, status: int, code: string)

  const STALE := "stale_probe_config"
  const CONFLICT := "probe_round_conflict"

  /** What a reply means for the item that was sent. */
  function Judge(reply: Reply): Verdict {
    match reply
    case TransportError(cancelled, timedOut) => if cancelled then Cancel else Retry("", 0)
    case Response(status, retryAfter, code) =>
      if Is2xx(status) then Accept
      else if IsRetryableStatus(status) then Retry(retryAfter, status)
      else Reject(Reason(status, code), status, code)
  }

  /** Why a batch is in the quarantine. */
  function Reason(status: int, code: string): string {
    if status == 409 && (code == STALE || code == CONFLICT) then "http-" + Number(status) + ("-" + code)
    else "http-" + Number(status)
  }

  /** The replies after which the item is sent again: time-outs and overload by
      their numbers, every server error, and no reply at all. */
  predicate SentAgain(reply: Reply) {
    match reply
    case TransportError(cancelled, _) => !cancelled
    case Response(status, _, _) => status == 408 || status == 429 || 500 <= status <= 599
  }

  predicate TakenOver(reply: Reply) {
    reply.Response? && 200 <= reply.status <= 299
  }

  /** The name a rejected item bears in the quarantine. */
  function RejectedFile(id: string, status: int, code: string): string {
    id + (".json.http-" + (Number(status) +
      (if status == 409 && code == "stale_probe_config" then "-stale-probe-config"
       else if status == 409 && code == "probe_round_conflict" then "-probe-round-conflict"
       else "")))
  }

  lemma {:induction false} CleanEach(reason: string)
    ensures |CleanReason(reason)| == |reason|
    ensures forall i :: 0 <= i < |reason| ==> CleanReason(reason)[i] == CleanChar(reason[i])
  {
    hide CleanChar;
    if reason != "" { CleanEach(reason[1..]); }
  }

  lemma CleanOfSum(a: string, b: string)
    ensures CleanReason(a + b) == CleanReason(a) + CleanReason(b)
  {
    CleanEach(a);
    CleanEach(b);
    CleanEach(a + b);
    hide CleanChar, CleanReason;
  }

  /** Small letters, digits and hyphens are kept. */
  lemma CleanKeeps(reason: string)
    requires forall i :: 0 <= i < |reason| ==> 'a' <= reason[i] <= 'z' || '0' <= reason[i] <= '9' || reason[i] == '-'
    ensures CleanReason(reason) == reason
  {
    CleanEach(reason);
  }

  lemma CleanStale()
    ensures CleanReason("-" + "stale_probe_config") == "-stale-probe-config"
  {
    CleanEach("-" + "stale_probe_config");
  }

  lemma CleanConflict()
    ensures CleanReason("-" + "probe_round_conflict") == "-probe-round-conflict"
  {
    CleanEach("-" + "probe_round_conflict");
  }

  lemma PrefixedName(id: string, s: string)
    ensures (id + ".json") + ("." + ("http-" + s)) == id + (".json.http-" + s)
  {
  }

  lemma PlainReason(status: int)
    ensures CleanReason("http-" + Number(status)) == "http-" + Number(status)
  {
    CleanKeeps("http-" + Number(status));
  }

  lemma ReasonText(status: int, code: string)
    ensures CleanReason(Reason(status, code))
            == "http-" + (Number(status) +
                 (if status == 409 && code == STALE then "-stale-probe-config"
                  else if status == 409 && code == CONFLICT then "-probe-round-conflict"
                  else ""))
  {
    PlainReason(status);
    CleanStale();
    CleanConflict();
    CleanOfSum("http-" + Number(status), "-" + code);
    hide Number, CleanReason;
    AssociatesText("http-", Number(status), CleanReason("-" + code));
    AssociatesText("http-", Number(status), "");
  }

  lemma AssociatesText(a: string, b: string, c: string)
    ensures (a + b) + c == a + (b + c) && b + "" == b
  {
  }

  lemma RejectedName(id: string, status: int, code: string)
    ensures QuarantineName(FileName(id), Reason(status, code)) == RejectedFile(id, status, code)
  {
    ReasonText(status, code);
    PrefixedName(id, Number(status) + (if status == 409 && code == STALE then "-stale-probe-config"
                                       else if status == 409 && code == CONFLICT then "-probe-round-conflict"
                                       else ""));
    hide Number, CleanReason, Reason;
  }

  // ------------------------------------------------------ the queue as a map

  /** The queue without what is past its time to live. */
  function Live(u: Setup, queue: map<string, Item>, now: int): map<string, Item> {
    map id | id in queue && !PastTtl(u, queue[id].created, now) :: queue[id]
  }

  function Due(u: Setup, queue: map<string, Item>, now: int): set<string> {
    set id | id in queue && !PastTtl(u, queue[id].created, now) && queue[id].nextAt <= now
  }

  predicate LeastDue(u: Setup, queue: map<string, Item>, now: int, id: string) {
    && id in Due(u, queue, now)
    && forall other :: other in Due(u, queue, now) ==> other == id || Less(FileName(id), FileName(other))
  }

  function Retried(item: Item, header: string, now: int, timing: Timing): Item
    requires 0 <= item.attempt <= MAX_UINT32
  {
    var attempt := NextAttempt(item.attempt);
    item.(attempt := attempt, nextAt := now + Delay(header, attempt, now, timing))
  }

  /** What one upload of `id` makes of the queue. */
  function AfterUpload(u: Setup, queue: map<string, Item>, now: int, id: string, verdict: Verdict, timing: Timing): map<string, Item>
    requires id in queue && 0 <= queue[id].attempt <= MAX_UINT32
  {
    match verdict
    case Cancel => Live(u, queue, now)
    case Accept => Live(u, queue, now) - {id}
    case Retry(header, _) => Live(u, queue, now)[id := Retried(queue[id], header, now, timing)]
    case Reject(_, _, _) => Live(u, queue, now) - {id}
  }

  /** The verdict leaves the item due at this very moment. */
  predicate StaysDue(verdict: Verdict, item: Item, now: int, timing: Timing)
    requires 0 <= item.attempt <= MAX_UINT32
  {
    verdict.Cancel? || (verdict.Retry? && GatesNow(verdict.header, NextAttempt(item.attempt), now, timing))
  }

  /** An upload takes exactly the sent item out of the due ones, unless it was
      cancelled or gated with a delay of zero: then it takes out nothing. */
  lemma UploadShrinksDueIff(u: Setup, queue: map<string, Item>, now: int, id: string, verdict: Verdict, timing: Timing)
    requires id in Due(u, queue, now) && 0 <= queue[id].attempt <= MAX_UINT32
    ensures Due(u, AfterUpload(u, queue, now, id, verdict, timing), now)
            == Due(u, queue, now) - (if StaysDue(verdict, queue[id], now, timing) then {} else {id})
    ensures |Due(u, AfterUpload(u, queue, now, id, verdict, timing), now)| < |Due(u, queue, now)|
            <==> !StaysDue(verdict, queue[id], now, timing)
  {
    hide Delay, GatesNow;
    if verdict.Retry? {
      DelayRange(verdict.header, NextAttempt(queue[id].attempt), now, timing);
    }
    var after := AfterUpload(u, queue, now, id, verdict, timing);
    assert Due(u, after, now) == Due(u, queue, now) - (if StaysDue(verdict, queue[id], now, timing) then {} else {id});
    assert |Due(u, queue, now) - {id}| == |Due(u, queue, now)| - 1;
    assert Due(u, queue, now) - {} == Due(u, queue, now);
  }

  /** A `Retry-After: 0` leaves any item due, so there are uploads that take
      nothing out. */
  lemma RetryAfterZeroStaysDue(item: Item, now: int, timing: Timing)
    requires 0 <= item.attempt <= MAX_UINT32
    ensures StaysDue(Judge(Response(429, "0", "")), item, now, timing)
  {
    assert Trim("0") == "0";
  }

  // ------------------------------------------- the directory and the queue

  lemma ViewOfKept(u: Setup, pending: map<string, Entry>, now: int)
    ensures View(u, Kept(u, pending, now)) == Live(u, View(u, pending), now)
  {
    var kept, live := View(u, Kept(u, pending, now)), Live(u, View(u, pending), now);
    forall id ensures id in kept <==> id in live
              ensures id in kept ==> kept[id] == live[id]
    {
      hide View, ReadEnvelope, HasSuffix, PastTtl;
      ViewAt(u, pending, id);
      ViewAt(u, Kept(u, pending, now), id);
    }
  }

  lemma DueByFile(u: Setup, pending: map<string, Entry>, now: int, id: string)
    ensures id in Due(u, View(u, pending), now)
            <==> FileName(id) in pending && IsDue(u, FileName(id), pending[FileName(id)], now)
  {
    hide View, ReadEnvelope;
    ViewAt(u, pending, id);
  }

  /** What Next finds is the least due id of the queue. */
  lemma FoundIsLeast(u: Setup, pending: map<string, Entry>, now: int, id: string)
    requires FileName(id) in pending && IsDue(u, FileName(id), pending[FileName(id)], now)
    requires forall n :: n in pending && IsDue(u, n, pending[n], now) ==> n == FileName(id) || Less(FileName(id), n)
    ensures LeastDue(u, View(u, pending), now, id)
  {
    hide View, IsDue, Less;
    DueByFile(u, pending, now, id);
    forall other | other in Due(u, View(u, pending), now) ensures other == id || Less(FileName(id), FileName(other)) {
      DueByFile(u, pending, now, other);
      IdOfFileName(id);
      IdOfFileName(other);
    }
  }

  lemma NothingDue(u: Setup, pending: map<string, Entry>, now: int)
    requires forall n :: n in pending ==> !IsDue(u, n, pending[n], now)
    ensures Due(u, View(u, pending), now) == {}
  {
    hide View, IsDue;
    forall id | id in Due(u, View(u, pending), now) ensures false {
      DueByFile(u, pending, now, id);
    }
  }

  /** Cleaning up changes which items are due not at all. */
  lemma DueOfLive(u: Setup, queue: map<string, Item>, now: int)
    ensures Due(u, Live(u, queue, now), now) == Due(u, queue, now)
    ensures Live(u, Live(u, queue, now), now) == Live(u, queue, now)
  {
  }

  /** An item the ledger knows is sent with the body it was stored with. */
  lemma KnownBody(u: Setup, s: Store, id: string)
    requires Sound(u, s) && id in s.ledger && FileName(id) in s.pending && ReadEnvelope(u, s.pending[FileName(id)]).Some?
    ensures s.ledger[id].Pending?
    ensures ReadEnvelope(u, s.pending[FileName(id)]).value.batch == s.births[id].body
  {
    assert SoundId(u, s, id);
  }

  /** Rewriting an item the ledger knows changes its retry data only. */
  lemma RetriedReadsBack(u: Setup, s: Store, name: string, attempt: int, nextAt: int)
    requires ValidSetup(u) && Sound(u, s) && Owned(s, name) && name in s.pending
    requires 0 <= attempt <= MAX_UINT32 && 0 < nextAt <= MAX_INT64
    ensures ReadEnvelope(u, s.pending[name]).Some?
    ensures var item := ItemOf(ReadEnvelope(u, s.pending[name]).value).(attempt := attempt, nextAt := nextAt);
            && Rewritten(u, s.pending[name], attempt, nextAt) == Encode(u, item)
            && (|Encode(u, item)| <= u.limits.maxItemBytes ==>
                  ReadEnvelope(u, File(Encode(u, item))) == Some(Seal(u, item)) && ItemOf(Seal(u, item)) == item)
  {
    assert SoundId(u, s, IdOf(name));
    var item := ItemOf(ReadEnvelope(u, s.pending[name]).value);
    WrittenReadsBack(u, item);
    assert Seal(u, item) == ReadEnvelope(u, s.pending[name]).value;
    if |Encode(u, item.(attempt := attempt, nextAt := nextAt))| <= u.limits.maxItemBytes {
      WrittenReadsBack(u, item.(attempt := attempt, nextAt := nextAt));
    }
  }

  /** The ids the spool makes up are ids its methods take. */
  lemma KnownIdValid(u: Setup, s: Store, id: string)
    requires Sound(u, s) && id in s.ledger
    ensures ValidId(id)
  {
    assert SoundId(u, s, id);
    var b := s.births[id];
    assert id == Fixed(b.created, ID_DIGITS) + ("-" + b.random);
    assert |id| == 53;
    assert forall i :: 0 <= i < 20 ==> id[i] == Fixed(b.created, ID_DIGITS)[i];
    assert forall i :: 21 <= i < 53 ==> id[i] == b.random[i - 21];
    assert id[20] == '-';
    assert id[|id| - 5..][4] == b.random[31];
  }

  // --------------------------------------------------------------- the log

  /** One POST of an item; `known` if the ledger knew the item then. */
  datatype Sent = Sent(id: string, body: string, reply: Reply, known: bool)

  predicate Accepted(reply: Reply) {
    reply.Response? && Is2xx(reply.status)
  }

  /** Some POST of exactly the stored body of `id` was answered with 2xx. */
  ghost predicate WasAccepted(sent: seq<Sent>, id: string, body: string) {
    exists k :: 0 <= k < |sent| && sent[k].id == id && sent[k].body == body && Accepted(sent[k].reply)
  }

  /** Every POST of a stored item carried the stored body, and every
      acknowledged item was accepted with that body. */
  ghost predicate LogRight(sent: seq<Sent>, origin: Store, s: Store) {
    && (forall k :: 0 <= k < |sent| && sent[k].known ==>
          sent[k].id in s.births && sent[k].body == s.births[sent[k].id].body)
    && (forall id :: id in s.ledger && s.ledger[id].Acked? ==>
          || (id in origin.ledger && origin.ledger[id].Acked?)
          || (id in s.births && WasAccepted(sent, id, s.births[id].body)))
  }

  /** The log stays right when items are stored and nothing is acknowledged,
      whatever else happens to the spool between two uploads. */
  lemma LogStaysRight(u: Setup, sent: seq<Sent>, origin: Store, earlier: seq<Event>, later: seq<Event>)
    requires ValidSetup(u) && Sound(u, origin) && Legal(u, origin, later) && NoAckSince(earlier, later)
    requires LogRight(sent, origin, Replay(u, origin, earlier))
    ensures LogRight(sent, origin, Replay(u, origin, later))
  {
    hide Sound, Legal, Replay;
    var s, t := Replay(u, origin, earlier), Replay(u, origin, later);
    assert later[..|earlier|] == earlier;
    RunLater(u, origin, later, |earlier|);
    LegalPrefix(u, origin, later, |earlier|);
    RunSound(u, origin, earlier);
    BooksAgree(u, s);
    forall id | id in t.ledger && t.ledger[id].Acked?
      ensures (id in origin.ledger && origin.ledger[id].Acked?) || (id in t.births && WasAccepted(sent, id, t.births[id].body))
    {
      NoAckLedger(u, origin, earlier, later, id);
    }
  }

  lemma BooksAgree(u: Setup, s: Store)
    requires Sound(u, s)
    ensures s.ledger.Keys == s.births.Keys
  {
  }

  lemma LogOneMore(sent: seq<Sent>, origin: Store, s: Store, entry: Sent)
    requires LogRight(sent, origin, s)
    requires entry.known ==> entry.id in s.births && entry.body == s.births[entry.id].body
    ensures LogRight(sent + [entry], origin, s)
  {
    var longer := sent + [entry];
    forall id | id in s.births && WasAccepted(sent, id, s.births[id].body)
      ensures WasAccepted(longer, id, s.births[id].body)
    {
      var k :| 0 <= k < |sent| && sent[k].id == id && sent[k].body == s.births[id].body && Accepted(sent[k].reply);
      assert longer[k] == sent[k];
    }
  }

  /** Acknowledging the item last accepted keeps the log right. */
  lemma LogAcked(u: Setup, sent: seq<Sent>, origin: Store, s: Store, id: string)
    requires Sound(u, s) && LogRight(sent, origin, s)
    requires sent != [] && sent[|sent| - 1].id == id && Accepted(sent[|sent| - 1].reply)
    requires id in s.ledger ==> sent[|sent| - 1].body == s.births[id].body
    ensures LogRight(sent, origin, Apply(u, s, Remove(FileName(id), ByAck)))
  {
    var t := Apply(u, s, Remove(FileName(id), ByAck));
    IdOfFileName(id);
    BooksAgree(u, s);
    assert id in s.ledger ==> WasAccepted(sent, id, s.births[id].body);
    hide Sound, WasAccepted;
  }

  // ---------------------------------------------------------------- uploader

  datatype Outcome =
    | NoWork
    | LocalFailure
    | Cancelled
    | Acknowledged
    | RetryScheduled(status: int, attempt: int, nextAt: int, timedOut: bool)
    | Rejected(status: int, code: string)

  /** Names for temporary files, as the system picks them. */
  ghost predicate PicksFresh(pick: map<string, Entry> -> string) {
    forall p: map<string, Entry> :: IsTempName(pick(p)) && pick(p) !in p
  }

  /** A call of Enqueue by the probing worker. */
  datatype Storing = Storing(rounds: seq<ProbeRound>, now: int, random: string, partial: string, free: nat)

  function StoredId(call: Storing): string {
    MakeId(call.now, call.random)
  }

  function StoredIds(calls: seq<Storing>): set<string> {
    set call | call in calls :: StoredId(call)
  }

  /** What these calls draw is valid, and neither used before nor drawn twice. */
  ghost predicate MayStore(s: Store, calls: seq<Storing>) {
    && (forall call :: call in calls ==> 0 < call.now <= MAX_INT64 && IsRandom(call.random) && FreshId(s, StoredId(call)))
    && (forall i, k :: 0 <= i < k < |calls| ==> StoredId(calls[i]) != StoredId(calls[k]))
  }

  /** An id that has not been stored is as fresh as it was. */
  lemma FreshLater(u: Setup, origin: Store, earlier: seq<Event>, later: seq<Event>, id: string)
    requires Legal(u, origin, later) && earlier <= later
    requires FreshId(Replay(u, origin, earlier), id) && id !in Replay(u, origin, later).ledger
    ensures FreshId(Replay(u, origin, later), id)
  {
    hide Legal, Replay, FileName, Base;
    assert later[..|earlier|] == earlier && later[..|later|] == later;
    RunUnclaimed(u, origin, later, |earlier|, |later|, {id});
  }

  /** So the calls that are left may still be made after others. */
  lemma MayStoreLater(u: Setup, origin: Store, earlier: seq<Event>, later: seq<Event>, calls: seq<Storing>, stored: set<string>)
    requires ValidSetup(u) && Sound(u, origin) && Legal(u, origin, later) && earlier <= later
    requires MayStore(Replay(u, origin, earlier), calls) && StoredIds(calls) !! stored
    requires Replay(u, origin, later).births.Keys <= Replay(u, origin, earlier).births.Keys + stored
    ensures MayStore(Replay(u, origin, later), calls)
  {
    hide Sound, Legal, Replay, FreshId, IsRandom, StoredId;
    LegalPrefix(u, origin, later, |earlier|);
    assert later[..|earlier|] == earlier;
    RunSound(u, origin, earlier);
    RunSound(u, origin, later);
    BooksAgree(u, Replay(u, origin, earlier));
    BooksAgree(u, Replay(u, origin, later));
    forall call | call in calls ensures FreshId(Replay(u, origin, later), StoredId(call)) {
      FreshIsNew(Replay(u, origin, earlier), StoredId(call));
      FreshLater(u, origin, earlier, later, StoredId(call));
    }
  }

  lemma FreshIsNew(s: Store, id: string)
    requires FreshId(s, id)
    ensures id !in s.ledger && FileName(id) !in s.pending
  {
  }

  /** No such call stores an item under the id of one that is there. */
  lemma SentIsNotNew(s: Store, calls: seq<Storing>, id: string)
    requires MayStore(s, calls) && FileName(id) in s.pending
    ensures id !in StoredIds(calls)
  {
    hide FreshId, IsRandom, StoredId, FileName;
    forall call | call in calls ensures StoredId(call) != id {
      FreshIsNew(s, StoredId(call));
    }
  }

  lemma FirstCall(s: Store, calls: seq<Storing>)
    requires MayStore(s, calls) && calls != []
    ensures 0 < calls[0].now <= MAX_INT64 && IsRandom(calls[0].random) && FreshId(s, StoredId(calls[0]))
    ensures MayStore(s, calls[1..]) && StoredIds(calls) == {StoredId(calls[0])} + StoredIds(calls[1..])
    ensures StoredId(calls[0]) !in StoredIds(calls[1..])
  {
    hide FreshId, IsRandom, StoredId;
    forall id ensures id in StoredIds(calls) <==> id in {StoredId(calls[0])} + StoredIds(calls[1..]) {
      if id in StoredIds(calls) {
        var k :| 0 <= k < |calls| && StoredId(calls[k]) == id;
        assert k > 0 ==> calls[k] == calls[1..][k - 1];
      }
    }
  }

  predicate RetryTooLarge(u: Setup, item: Item, verdict: Verdict, now: int, timing: Timing)
    requires 0 <= item.attempt <= MAX_UINT32
  {
    verdict.Retry? && |Encode(u, Retried(item, verdict.header, now, timing))| > u.limits.maxItemBytes
  }

  /** What the caller is told of a reply to `item`. */
  predicate Told(reply: Reply, outcome: Outcome, attempt: nat, now: int, timing: Timing) {
    && (outcome.Cancelled? <==> reply.TransportError? && reply.cancelled)
    && (outcome.Acknowledged? ==> TakenOver(reply))
    && (outcome.Rejected? ==>
          reply.Response? && !TakenOver(reply) && !SentAgain(reply) && outcome == Rejected(reply.status, reply.code))
    && (outcome.RetryScheduled? ==>
          && SentAgain(reply)
          && outcome.status == (if reply.Response? then reply.status else 0)
          && outcome.attempt == (if attempt < 4_294_967_295 then attempt + 1 else attempt) >= 0
          && Waits(if reply.Response? then reply.retryAfter else "", outcome.attempt, now, timing, outcome.nextAt - now))
    && !outcome.NoWork?
  }

  /** With such a wait the item would be too large to be stored. */
  predicate Outgrows(u: Setup, item: Item, attempt: nat, nextAt: int) {
    |Encode(u, item.(attempt := attempt, nextAt := nextAt))| > u.limits.maxItemBytes
  }

  /** The item's time has come and is not yet over. */
  predicate TimeHasCome(u: Setup, item: Item, now: int) {
    item.nextAt <= now < item.created + u.limits.ttl
  }

  /** The oldest such item is sent. */
  predicate OldestSent(u: Setup, queue: map<string, Item>, now: int, id: string) {
    && id in queue && TimeHasCome(u, queue[id], now)
    && forall x :: x in queue && x != id && TimeHasCome(u, queue[x], now) ==> Less(id + ".json", x + ".json")
  }

  /** What becomes of the item that was sent, and of all others. */
  ghost predicate Handled(u: Setup, before: map<string, Item>, after: map<string, Item>, now: int, id: string, reply: Reply,
                          timing: Timing, outcome: Outcome)
    requires id in before && 0 <= before[id].attempt
  {
    var item := before[id];
    var attempt := if item.attempt < 4_294_967_295 then item.attempt + 1 else item.attempt;
    var header := if reply.Response? then reply.retryAfter else "";
    && Told(reply, outcome, item.attempt, now, timing)
    && (forall x :: x != id ==>
          && (x in after <==> x in before && now < before[x].created + u.limits.ttl)
          && (x in after ==> after[x] == before[x]))
    // It stays exactly for these replies, as it was but for attempt and gate.
    && (id in after <==> reply.TransportError? || SentAgain(reply))
    && (id in after ==> after[id].body == item.body && after[id].created == item.created)
    && (reply.TransportError? && reply.cancelled ==> after[id] == item)
    && (SentAgain(reply) ==>
          (outcome.RetryScheduled? && after[id].attempt == attempt && after[id].nextAt == outcome.nextAt)
          || (outcome.LocalFailure? && after[id] == item))
    // Only an item that would be too large is left as it was.
    && (SentAgain(reply) && outcome.LocalFailure? ==>
          forall delay :: Waits(header, attempt, now, timing, delay) ==> Outgrows(u, item, attempt, now + delay))
    && (TakenOver(reply) ==> outcome.Acknowledged?)
    && (reply.Response? && !TakenOver(reply) && !SentAgain(reply) ==> outcome.Rejected?)
  }

  lemma ToldRetry(reply: Reply, outcome: Outcome, attempt: nat, now: int, timing: Timing)
    requires if reply.Response? then IsRetryableStatus(reply.status) else !reply.cancelled
    requires outcome.LocalFailure? || outcome.RetryScheduled?
    requires outcome.RetryScheduled? ==>
               && outcome.status == (if reply.Response? then reply.status else 0)
               && outcome.attempt == (if attempt < 4_294_967_295 then attempt + 1 else attempt) >= 0
               && Waits(if reply.Response? then reply.retryAfter else "", outcome.attempt, now, timing, outcome.nextAt - now)
    ensures Told(reply, outcome, attempt, now, timing)
  {
    hide Waits;
  }

  lemma AnnouncedIsTold(reply: Reply, outcome: Outcome, item: Item, now: int, timing: Timing)
    requires 0 <= item.attempt <= MAX_UINT32 && Announces(outcome, Judge(reply), item, now, timing)
    ensures Told(reply, outcome, item.attempt, now, timing)
  {
    var verdict := Judge(reply);
    hide Waits, Delay;
    if verdict.Retry? {
      DelayIsWaited(verdict.header, NextAttempt(item.attempt), now, timing, outcome.nextAt - now);
    }
  }

  /** A retry as the protocol asks for it, or the item is too large for that. */
  lemma RetryHandles(u: Setup, before: map<string, Item>, after: map<string, Item>, now: int, reply: Reply, timing: Timing,
                     id: string, outcome: Outcome)
    requires id in before && 0 <= before[id].attempt <= MAX_UINT32 && Judge(reply).Retry?
    requires var verdict, item := Judge(reply), before[id];
             if RetryTooLarge(u, item, verdict, now, timing) then outcome.LocalFailure? && after == Live(u, before, now)
             else after == AfterUpload(u, before, now, id, verdict, timing) && Announces(outcome, verdict, item, now, timing)
    requires id in Live(u, before, now)
    ensures Handled(u, before, after, now, id, reply, timing, outcome)
  {
    hide Waits, Delay, Encode;
    var item, verdict := before[id], Judge(reply);
    var attempt := NextAttempt(item.attempt);
    if RetryTooLarge(u, item, verdict, now, timing) {
      forall delay | Waits(verdict.header, attempt, now, timing, delay) ensures Outgrows(u, item, attempt, now + delay) {
        DelayIsWaited(verdict.header, attempt, now, timing, delay);
      }
    } else {
      AnnouncedIsTold(reply, outcome, item, now, timing);
    }
  }

  lemma LeastIsThere(u: Setup, queue: map<string, Item>, now: int, id: string)
    requires LeastDue(u, queue, now, id)
    ensures id in Live(u, queue, now)
  {
  }

  lemma LeastIsOldest(u: Setup, queue: map<string, Item>, now: int, id: string)
    requires LeastDue(u, queue, now, id)
    ensures OldestSent(u, queue, now, id)
  {
    hide Less;
    forall x | x in queue && x != id && TimeHasCome(u, queue[x], now) ensures Less(id + ".json", x + ".json") {
      assert x in Due(u, queue, now);
    }
  }

  /** Nothing is sent only if nobody's time has come. */
  lemma NothingSent(u: Setup, before: map<string, Item>, after: map<string, Item>, now: int, net: string -> Reply, timing: Timing,
                    outcome: Outcome)
    requires UploadStep(u, before, after, now, net, timing, "", false, outcome)
    ensures forall x :: x in before ==> !TimeHasCome(u, before[x], now)
  {
    hide Live, Judge, Less;
    forall x | x in before ensures !TimeHasCome(u, before[x], now) {
      assert x !in Due(u, before, now);
    }
  }

  /** So the step of the verdict is what the protocol asks for by its numbers. */
  lemma StepHandles(u: Setup, before: map<string, Item>, after: map<string, Item>, now: int, net: string -> Reply, timing: Timing,
                    id: string, outcome: Outcome)
    requires UploadStep(u, before, after, now, net, timing, id, true, outcome)
    ensures id in before && 0 <= before[id].attempt
    ensures OldestSent(u, before, now, id)
    ensures Handled(u, before, after, now, id, net(before[id].body), timing, outcome)
  {
    hide OldestSent, Due, LeastDue;
    LeastIsOldest(u, before, now, id);
    LeastIsThere(u, before, now, id);
    var item := before[id];
    var reply := net(item.body);
    hide Waits, Delay, Encode;
    if Judge(reply).Retry? {
      hide Judge, Handled;
      RetryHandles(u, before, after, now, reply, timing, id, outcome);
    } else {
      AnnouncedIsTold(reply, outcome, item, now, timing);
    }
  }

  predicate Announces(outcome: Outcome, verdict: Verdict, item: Item, now: int, timing: Timing)
    requires 0 <= item.attempt <= MAX_UINT32
  {
    match verdict
    case Cancel => outcome.Cancelled?
    case Accept => outcome.Acknowledged?
    case Retry(header, status) =>
      && outcome.RetryScheduled? && outcome.status == status
      && outcome.attempt == Retried(item, header, now, timing).attempt
      && outcome.nextAt == Retried(item, header, now, timing).nextAt
    case Reject(_, status, code) => outcome == Rejected(status, code)
  }

  /** An upload as a step of the queue: the least due item is sent, and the
      verdict on the reply decides what becomes of it. Only a retry that would
      outgrow the item limit is a local failure that leaves the queue alone. */
  ghost predicate UploadStep(u: Setup, before: map<string, Item>, after: map<string, Item>, now: int,
                             net: string -> Reply, timing: Timing, id: string, worked: bool, outcome: Outcome) {
    if Due(u, before, now) == {} then
      !worked && outcome.NoWork? && after == Live(u, before, now)
    else
      && worked && LeastDue(u, before, now, id)
      && 0 <= before[id].attempt <= MAX_UINT32
      && var verdict := Judge(net(before[id].body));
         if RetryTooLarge(u, before[id], verdict, now, timing) then
           outcome.LocalFailure? && after == Live(u, before, now)
         else
           after == AfterUpload(u, before, now, id, verdict, timing)
           && Announces(outcome, verdict, before[id], now, timing)
  }

  lemma AttemptTyped(u: Setup, entry: Entry)
    requires ValidSetup(u) && ReadEnvelope(u, entry).Some?
    ensures 0 <= ReadEnvelope(u, entry).value.attempt <= MAX_UINT32
  {
  }

  lemma StillOwned(u: Setup, s: Store, t: Store)
    requires Sound(u, s) && Sound(u, t) && AllOwned(s) && t.births == s.births
    requires forall n :: n in t.pending ==> n in s.pending
    ensures AllOwned(t)
  {
    forall name | name in t.pending && IsItemName(name) ensures Owned(t, name) {
      assert Owned(s, name) && SoundId(u, t, IdOf(name));
    }
  }

  lemma NothingToDo(u: Setup, before: map<string, Entry>, cleaned: map<string, Entry>, now: int,
                    net: string -> Reply, timing: Timing)
    requires cleaned == Kept(u, before, now)
    requires forall n :: n in cleaned ==> !IsDue(u, n, cleaned[n], now)
    ensures UploadStep(u, View(u, before), View(u, cleaned), now, net, timing, "", false, NoWork)
  {
    hide View, Kept, IsDue, Due, Live;
    ViewOfKept(u, before, now);
    NothingDue(u, cleaned, now);
    DueOfLive(u, View(u, before), now);
  }

  lemma FoundReads(u: Setup, pending: map<string, Entry>, id: string, now: int)
    requires FileName(id) in pending && IsDue(u, FileName(id), pending[FileName(id)], now)
    ensures ReadEnvelope(u, pending[FileName(id)]).Some?
  {
  }

  lemma ReadIsFile(u: Setup, entry: Entry)
    requires ReadEnvelope(u, entry).Some?
    ensures entry.File?
  {
  }

  /** What the directory was changed to after `id` was found in what a cleanup
      left of it. */
  ghost predicate DirectoryStep(u: Setup, cleaned: map<string, Entry>, after: map<string, Entry>, now: int, id: string,
                                item: Item, verdict: Verdict, timing: Timing, outcome: Outcome)
    requires FileName(id) in cleaned && ReadEnvelope(u, cleaned[FileName(id)]).Some? && 0 <= item.attempt <= MAX_UINT32
  {
    match verdict
    case Cancel => after == cleaned && outcome.Cancelled?
    case Accept => after == cleaned - {FileName(id)} && outcome.Acknowledged?
    case Reject(_, status, code) => after == cleaned - {FileName(id)} && outcome == Rejected(status, code)
    case Retry(header, status) =>
      var retried := Retried(item, header, now, timing);
      var content := Rewritten(u, cleaned[FileName(id)], retried.attempt, retried.nextAt);
      if |content| > u.limits.maxItemBytes then after == cleaned && outcome.LocalFailure?
      else after == cleaned[FileName(id) := File(content)] && Announces(outcome, verdict, item, now, timing)
  }

  /** Rewriting a directory's item is retrying the queue's item. */
  lemma RetryInQueue(u: Setup, s: Store, id: string, item: Item, header: string, now: int, timing: Timing)
    requires ValidSetup(u) && Sound(u, s) && Owned(s, FileName(id)) && FileName(id) in s.pending
    requires ReadEnvelope(u, s.pending[FileName(id)]).Some? && 0 <= item.attempt <= MAX_UINT32
    requires item == ItemOf(ReadEnvelope(u, s.pending[FileName(id)]).value) && 0 < now <= MAX_INT64 - MAX_BACKOFF
    ensures var retried := Retried(item, header, now, timing);
            && Rewritten(u, s.pending[FileName(id)], retried.attempt, retried.nextAt) == Encode(u, retried)
            && (|Encode(u, retried)| <= u.limits.maxItemBytes ==>
                  View(u, s.pending[FileName(id) := File(Encode(u, retried))]) == View(u, s.pending)[id := retried])
  {
    hide View, ReadEnvelope, Sound, Rewritten, Encode, Delay, HasSuffix;
    var retried := Retried(item, header, now, timing);
    DelayRange(header, retried.attempt, now, timing);
    RetriedReadsBack(u, s, FileName(id), retried.attempt, retried.nextAt);
    if |Encode(u, retried)| <= u.limits.maxItemBytes {
      ViewOfPut(u, s.pending, id, File(Encode(u, retried)), retried);
    }
  }

  /** Seen through the queue, that is an upload step. */
  lemma DirectoryStepIsUploadStep(u: Setup, s: Store, before: map<string, Entry>, after: map<string, Entry>, now: int,
                                  net: string -> Reply, timing: Timing, id: string, item: Item, outcome: Outcome)
    requires ValidSetup(u) && Sound(u, s) && AllOwned(s)
    requires s.pending == Kept(u, before, now) && 0 < now <= MAX_INT64 - MAX_BACKOFF
    requires FileName(id) in s.pending && IsDue(u, FileName(id), s.pending[FileName(id)], now)
    requires forall n :: n in s.pending && IsDue(u, n, s.pending[n], now) ==> n == FileName(id) || Less(FileName(id), n)
    requires ReadEnvelope(u, s.pending[FileName(id)]).Some? && 0 <= item.attempt <= MAX_UINT32
    requires item == ItemOf(ReadEnvelope(u, s.pending[FileName(id)]).value)
    requires DirectoryStep(u, s.pending, after, now, id, item, Judge(net(item.body)), timing, outcome)
    ensures UploadStep(u, View(u, before), View(u, after), now, net, timing, id, true, outcome)
  {
    hide View, ReadEnvelope, Sound, AllOwned, Less, Rewritten, Encode, Delay, Judge, HasSuffix, PastTtl, IsDue, Kept,
         Owned, Retried, Live, Due, FileName;
    var verdict := Judge(net(item.body));
    var queue := View(u, before);
    ViewOfKept(u, before, now);
    DueOfLive(u, queue, now);
    FoundIsLeast(u, s.pending, now, id);
    LiveAt(u, queue, now, id);
    ViewAt(u, s.pending, id);
    ViewOfDrop(u, s.pending, id);
    OwnedHere(s, id);
    if verdict.Retry? {
      RetryInQueue(u, s, id, item, verdict.header, now, timing);
    }
  }

  lemma LiveAt(u: Setup, queue: map<string, Item>, now: int, id: string)
    ensures id in Live(u, queue, now) ==> id in queue && queue[id] == Live(u, queue, now)[id]
  {
  }

  lemma OwnedIsKnown(u: Setup, s: Store, id: string)
    requires Sound(u, s) && AllOwned(s) && FileName(id) in s.pending
    ensures id in s.births
  {
    IdOfFileName(id);
  }

  /** Removing an item as acknowledged is entered in its books. */
  lemma AckedInBooks(u: Setup, s: Store, id: string)
    requires Sound(u, s)
    ensures FileName(id) in s.pending && id in s.births ==>
              var t := Apply(u, s, Remove(FileName(id), ByAck));
              id in t.ledger && t.ledger[id].Acked?
  {
    IdOfFileName(id);
    if FileName(id) in s.pending && id in s.births {
      assert SoundId(u, s, id);
    }
  }

  lemma OwnedHere(s: Store, id: string)
    requires AllOwned(s) && FileName(id) in s.pending
    ensures Owned(s, FileName(id))
  {
  }

  /** The uploader goes on after these. */
  predicate Settled(outcome: Outcome) {
    outcome.Acknowledged? || outcome.RetryScheduled? || outcome.Rejected?
  }

  /** Whatever else failed, a settled item has left the directory or sits
      behind its retry gate, and nothing was added. */
  ghost predicate SettledIn(u: Setup, before: map<string, Entry>, after: map<string, Entry>, id: string, outcome: Outcome) {
    && FileName(id) in before && ReadEnvelope(u, before[FileName(id)]).Some?
    && (forall n :: n in after && n != FileName(id) ==> n in before && after[n] == before[n])
    && (FileName(id) in after ==>
          && outcome.RetryScheduled?
          && after[FileName(id)] == File(Rewritten(u, before[FileName(id)], outcome.attempt, outcome.nextAt))
          && |Rewritten(u, before[FileName(id)], outcome.attempt, outcome.nextAt)| <= u.limits.maxItemBytes
          && 0 <= outcome.attempt <= MAX_UINT32 && 0 < outcome.nextAt <= MAX_INT64)
  }

  /** The item can still be read where it was. */
  predicate StillThere(u: Setup, pending: map<string, Entry>, id: string) {
    FileName(id) in pending && ReadEnvelope(u, pending[FileName(id)]).Some?
  }

  lemma SettledWasThere(u: Setup, before: map<string, Entry>, after: map<string, Entry>, id: string, outcome: Outcome)
    requires SettledIn(u, before, after, id, outcome)
    ensures FileName(id) in before
  {
  }

  /** What an item was stored with does not change while it is being sent, and
      no new item takes its id. */
  lemma BodyKept(u: Setup, origin: Store, earlier: seq<Event>, later: seq<Event>, id: string, body: string)
    requires ValidSetup(u) && Sound(u, origin) && Legal(u, origin, later) && NoAckSince(earlier, later)
    requires var s, t := Replay(u, origin, earlier), Replay(u, origin, later);
             && (id in s.births ==> body == s.births[id].body)
             && (id in t.ledger ==> id in s.ledger)
    ensures id in Replay(u, origin, later).births ==> body == Replay(u, origin, later).births[id].body
  {
    hide Sound, Legal, Replay;
    assert later[..|earlier|] == earlier;
    LegalPrefix(u, origin, later, |earlier|);
    RunSound(u, origin, earlier);
    RunSound(u, origin, later);
    BooksAgree(u, Replay(u, origin, earlier));
    BooksAgree(u, Replay(u, origin, later));
    RunLater(u, origin, later, |earlier|);
  }

  /** No item that is due is left due by any of these replies to it. */
  ghost predicate NoZeroDelay(u: Setup, queue: map<string, Item>, now: int, net: nat -> string -> Reply, timing: Timing) {
    forall n: nat, id :: id in Due(u, queue, now) && 0 <= queue[id].attempt <= MAX_UINT32 ==>
      var verdict := Judge(net(n)(queue[id].body));
      verdict.Retry? ==> !GatesNow(verdict.header, NextAttempt(queue[id].attempt), now, timing)
  }

  lemma FewerDue(u: Setup, before: map<string, Item>, after: map<string, Item>, now: int, net: nat -> string -> Reply, timing: Timing)
    requires NoZeroDelay(u, before, now, net, timing)
    requires forall id :: id in Due(u, after, now) ==> id in Due(u, before, now) && after[id] == before[id]
    ensures NoZeroDelay(u, after, now, net, timing)
  {
    hide Due, Judge, GatesNow;
  }

  /** Another id's due item is as it was. */
  lemma OtherStaysDue(u: Setup, before: map<string, Entry>, after: map<string, Entry>, now: int, x: string)
    requires x in Due(u, View(u, after), now)
    requires FileName(x) in after ==> FileName(x) in before && after[FileName(x)] == before[FileName(x)]
    ensures x in Due(u, View(u, before), now) && x in View(u, after) && x in View(u, before)
    ensures View(u, after)[x] == View(u, before)[x]
  {
    hide View, Due, ReadEnvelope, IsDue, FileName;
    DueByFile(u, after, now, x);
    DueByFile(u, before, now, x);
    DueIsInQueue(u, View(u, after), now, x);
    ViewAt(u, after, x);
    ViewAt(u, before, x);
  }

  lemma SettledOthers(u: Setup, before: map<string, Entry>, after: map<string, Entry>, id: string, outcome: Outcome, name: string)
    requires SettledIn(u, before, after, id, outcome) && name in after && name != FileName(id)
    ensures name in before && after[name] == before[name]
  {
  }

  /** A settled upload leaves the other due items as they were. */
  lemma SettledKeepsDue(u: Setup, s: Store, t: Store, now: int, id: string, outcome: Outcome)
    requires ValidSetup(u) && Sound(u, s) && AllOwned(s)
    requires SettledIn(u, s.pending, t.pending, id, outcome)
    requires outcome.RetryScheduled? ==> outcome.nextAt > now
    ensures forall x :: x in Due(u, View(u, t.pending), now) ==>
              && x in Due(u, View(u, s.pending), now) && x in View(u, t.pending) && x in View(u, s.pending)
              && View(u, t.pending)[x] == View(u, s.pending)[x]
  {
    hide *;
    GatedNotDue(u, s, t.pending, now, id, outcome);
    forall x | x in Due(u, View(u, t.pending), now)
      ensures x in Due(u, View(u, s.pending), now) && x in View(u, t.pending) && x in View(u, s.pending)
      ensures View(u, t.pending)[x] == View(u, s.pending)[x]
    {
      DueByFile(u, t.pending, now, x);
      IdOfFileName(x);
      IdOfFileName(id);
      SettledOthers(u, s.pending, t.pending, id, outcome, FileName(x));
      OtherStaysDue(u, s.pending, t.pending, now, x);
    }
  }

  lemma DueIsInQueue(u: Setup, queue: map<string, Item>, now: int, id: string)
    ensures id in Due(u, queue, now) ==> id in queue
  {
  }

  /** A due item of the queue that is sent is gated into the future. */
  lemma SentIsGated(u: Setup, pending: map<string, Entry>, now: int, net: nat -> string -> Reply, n: nat, timing: Timing, id: string)
    requires ValidSetup(u) && NoZeroDelay(u, View(u, pending), now, net, timing)
    requires FileName(id) in pending && IsDue(u, FileName(id), pending[FileName(id)], now)
    ensures ReadEnvelope(u, pending[FileName(id)]).Some? && 0 <= ReadEnvelope(u, pending[FileName(id)]).value.attempt <= MAX_UINT32
    ensures var item := ItemOf(ReadEnvelope(u, pending[FileName(id)]).value);
            var verdict := Judge(net(n)(item.body));
            verdict.Retry? ==> Delay(verdict.header, NextAttempt(item.attempt), now, timing) > 0
  {
    FoundReads(u, pending, id, now);
    AttemptTyped(u, pending[FileName(id)]);
    DueByFile(u, pending, now, id);
    ViewAt(u, pending, id);
    hide View, Due, IsDue, Delay, GatesNow, ReadEnvelope;
    var item := ItemOf(ReadEnvelope(u, pending[FileName(id)]).value);
    var verdict := Judge(net(n)(item.body));
    if verdict.Retry? {
      DelayRange(verdict.header, NextAttempt(item.attempt), now, timing);
      assert !GatesNow(verdict.header, NextAttempt(item.attempt), now, timing);
    }
  }

  /** Behind a retry gate an item is not due. */
  lemma GatedNotDue(u: Setup, s: Store, after: map<string, Entry>, now: int, id: string, outcome: Outcome)
    requires ValidSetup(u) && Sound(u, s) && AllOwned(s)
    requires SettledIn(u, s.pending, after, id, outcome)
    requires outcome.RetryScheduled? ==> outcome.nextAt > now
    ensures FileName(id) in after ==> !IsDue(u, FileName(id), after[FileName(id)], now)
  {
    hide Sound, ReadEnvelope, Rewritten, HasSuffix, Encode;
    OwnedHere(s, id);
    if FileName(id) in after {
      RetriedReadsBack(u, s, FileName(id), outcome.attempt, outcome.nextAt);
    }
  }

  lemma SettledShrinks(u: Setup, s: Store, t: Store, now: int, id: string, outcome: Outcome)
    requires ValidSetup(u) && Sound(u, s) && AllOwned(s) && Sound(u, t) && t.births == s.births
    requires SettledIn(u, s.pending, t.pending, id, outcome)
    requires IsDue(u, FileName(id), s.pending[FileName(id)], now)
    requires outcome.RetryScheduled? ==> outcome.nextAt > now
    ensures AllOwned(t)
    ensures |Due(u, View(u, t.pending), now)| < |Due(u, View(u, s.pending), now)|
  {
    hide View, Sound, AllOwned, Owned, Due, ReadEnvelope, Rewritten, IsDue;
    StillOwned(u, s, t);
    GatedNotDue(u, s, t.pending, now, id, outcome);
    var before, after := Due(u, View(u, s.pending), now), Due(u, View(u, t.pending), now);
    DueByFile(u, s.pending, now, id);
    forall x | x in after ensures x in before - {id} {
      DueByFile(u, t.pending, now, x);
      DueByFile(u, s.pending, now, x);
      IdOfFileName(x);
      IdOfFileName(id);
    }
    SubsetSize(after, before - {id});
    assert |before - {id}| == |before| - 1;
  }

  /** What a reply to an item makes of the directory, wherever the item is by
      then. `exact` if the ledger knows it and no call fails. */
  ghost predicate SettledSo(u: Setup, before: map<string, Entry>, after: map<string, Entry>, now: int, id: string, item: Item,
                            reply: Reply, timing: Timing, outcome: Outcome, exact: bool)
    requires 0 <= item.attempt <= MAX_UINT32
  {
    && Told(reply, outcome, item.attempt, now, timing)
    && (outcome.RetryScheduled? ==>
          && Judge(reply).Retry?
          && outcome.nextAt == now + Delay(Judge(reply).header, NextAttempt(item.attempt), now, timing))
    && (Settled(outcome) && StillThere(u, before, id) ==> SettledIn(u, before, after, id, outcome))
    && (exact && StillThere(u, before, id) ==> DirectoryStep(u, before, after, now, id, item, Judge(reply), timing, outcome))
    // An item that is gone stays gone, and cannot be retried.
    && (FileName(id) !in before ==> after == before && !outcome.RetryScheduled?)
  }

  lemma SettledByRetry(u: Setup, before: map<string, Entry>, after: map<string, Entry>, now: int, id: string, item: Item,
                       reply: Reply, timing: Timing, outcome: Outcome, exact: bool)
    requires 0 <= item.attempt <= MAX_UINT32 && 0 < now <= MAX_INT64 - MAX_BACKOFF && Judge(reply).Retry?
    requires Told(reply, outcome, item.attempt, now, timing)
    requires FileName(id) !in before ==> after == before && outcome.LocalFailure?
    requires outcome.RetryScheduled? ==>
               && StillThere(u, before, id)
               && outcome.attempt <= MAX_UINT32 && 0 < outcome.nextAt <= MAX_INT64
               && outcome.attempt == Retried(item, Judge(reply).header, now, timing).attempt
               && outcome.nextAt == Retried(item, Judge(reply).header, now, timing).nextAt
               && |Rewritten(u, before[FileName(id)], outcome.attempt, outcome.nextAt)| <= u.limits.maxItemBytes
               && after == before[FileName(id) := File(Rewritten(u, before[FileName(id)], outcome.attempt, outcome.nextAt))]
    requires outcome.RetryScheduled? || outcome.LocalFailure?
    requires exact && StillThere(u, before, id) && outcome.LocalFailure? ==>
               && after == before
               && var retried := Retried(item, Judge(reply).header, now, timing);
                  |Rewritten(u, before[FileName(id)], retried.attempt, retried.nextAt)| > u.limits.maxItemBytes
    ensures SettledSo(u, before, after, now, id, item, reply, timing, outcome, exact)
  {
    hide Rewritten, ReadEnvelope, Waits, Delay, FileName;
  }

  lemma SettledByCancel(u: Setup, before: map<string, Entry>, now: int, id: string, item: Item, reply: Reply, timing: Timing)
    requires 0 <= item.attempt <= MAX_UINT32 && reply.TransportError? && reply.cancelled
    ensures SettledSo(u, before, before, now, id, item, reply, timing, Cancelled, true)
    ensures SettledSo(u, before, before, now, id, item, reply, timing, Cancelled, false)
  {
    hide ReadEnvelope, FileName;
  }

  lemma SettledByRemoval(u: Setup, before: map<string, Entry>, after: map<string, Entry>, now: int, id: string, item: Item,
                         reply: Reply, timing: Timing, outcome: Outcome, exact: bool)
    requires 0 <= item.attempt <= MAX_UINT32 && (Judge(reply).Accept? || Judge(reply).Reject?)
    requires outcome.LocalFailure? || outcome == (if Judge(reply).Accept? then Acknowledged else Rejected(reply.status, reply.code))
    requires after == before || after == before - {FileName(id)}
    requires !outcome.LocalFailure? ==> after == before - {FileName(id)}
    requires exact ==> !outcome.LocalFailure?
    ensures SettledSo(u, before, after, now, id, item, reply, timing, outcome, exact)
  {
    hide ReadEnvelope, FileName;
  }

  class ProbeUploader {
    const spool: ProbeSpool
    const timing: Timing
    ghost var sent: seq<Sent>

    ghost predicate Valid()
      reads this, spool
    {
      spool.Valid() && LogRight(sent, spool.origin, spool.Now())
    }

    constructor (spool: ProbeSpool, timing: Timing)
      requires spool.Valid() && spool.run == []
      ensures Valid() && this.spool == spool && this.timing == timing && sent == []
    {
      this.spool := spool;
      this.timing := timing;
      sent := [];
    }

    ghost function Queue(): map<string, Item>
      reads spool
    {
      View(spool.u, spool.pending)
    }

    /** Gates the item until after the delay the header or the backoff asks
        for. */
    method ScheduleRetry(id: string, item: Item, now: int, header: string, status: int, timedOut: bool,
                         pick: map<string, Entry> -> string, partial: string) returns (outcome: Outcome)
      requires Valid() && PicksFresh(pick)
      requires 0 <= item.attempt <= MAX_UINT32 && 0 < now <= MAX_INT64 - MAX_BACKOFF
      modifies spool
      ensures Valid() && spool.faults >= old(spool.faults) && NoAckSince(old(spool.run), spool.run)
      ensures spool.births == old(spool.births) && spool.ledger == old(spool.ledger)
      ensures outcome.LocalFailure? || (outcome.RetryScheduled? && outcome.status == status
                && outcome.attempt == Retried(item, header, now, timing).attempt
                && outcome.nextAt == Retried(item, header, now, timing).nextAt
                && 0 < outcome.nextAt && now <= outcome.nextAt <= now + MAX_BACKOFF)
      // It waits what the header's text or the draw says, after one attempt more.
      ensures outcome.RetryScheduled? ==>
                && outcome.attempt == (if item.attempt < 4_294_967_295 then item.attempt + 1 else item.attempt)
                && Waits(header, outcome.attempt, now, timing, outcome.nextAt - now)
                && outcome.timedOut == timedOut
      ensures outcome.RetryScheduled? ==>
                && spool.notify && FileName(id) in old(spool.pending) && 0 <= outcome.attempt <= MAX_UINT32
                && ReadEnvelope(spool.u, old(spool.pending)[FileName(id)]).Some?
                && var content := Rewritten(spool.u, old(spool.pending)[FileName(id)], outcome.attempt, outcome.nextAt);
                   |content| <= spool.u.limits.maxItemBytes && spool.pending == old(spool.pending)[FileName(id) := File(content)]
      ensures FileName(id) !in old(spool.pending) ==> outcome.LocalFailure? && spool.pending == old(spool.pending)
      ensures spool.faults == old(spool.faults) ==>
                && (outcome.LocalFailure? ==> spool.pending == old(spool.pending))
                && (outcome.LocalFailure? <==>
                      || !ValidId(id) || FileName(id) !in old(spool.pending)
                      || ReadEnvelope(spool.u, old(spool.pending)[FileName(id)]).None?
                      || |Rewritten(spool.u, old(spool.pending)[FileName(id)], Retried(item, header, now, timing).attempt,
                                    Retried(item, header, now, timing).nextAt)| > spool.u.limits.maxItemBytes)
    {
      hide LogRight, Waits, Delay, Backoff, Rewritten, ReadEnvelope, ValidId, Sound, Legal, Replay, FileName, PicksFresh, NoAckSince,
           GatesNow, Faithful;
      var attempt := NextAttempt(item.attempt);
      DelayRange(header, attempt, now, timing);
      var delay := RetryDelayOf(header, attempt, now);
      var nextAt := now + delay;
      var ok := PersistRetry(id, attempt, nextAt, pick, partial);
      if !ok {
        return LocalFailure;
      }
      return RetryScheduled(status, attempt, nextAt, timedOut);
    }

    /** The spool writes attempt and gate; the log is not touched. */
    method PersistRetry(id: string, attempt: nat, nextAt: int, pick: map<string, Entry> -> string, partial: string) returns (ok: bool)
      requires Valid() && PicksFresh(pick) && attempt <= MAX_UINT32 && 0 < nextAt <= MAX_INT64
      modifies spool
      ensures Valid() && spool.faults >= old(spool.faults) && NoAckSince(old(spool.run), spool.run)
      ensures spool.births == old(spool.births) && spool.ledger == old(spool.ledger)
      ensures ok ==>
                && FileName(id) in old(spool.pending) && ReadEnvelope(spool.u, old(spool.pending)[FileName(id)]).Some? && spool.notify
                && |Rewritten(spool.u, old(spool.pending)[FileName(id)], attempt, nextAt)| <= spool.u.limits.maxItemBytes
                && spool.pending
                   == old(spool.pending)[FileName(id) := File(Rewritten(spool.u, old(spool.pending)[FileName(id)], attempt, nextAt))]
      ensures FileName(id) !in old(spool.pending) ==> !ok && spool.pending == old(spool.pending)
      ensures !ok && spool.faults == old(spool.faults) ==>
                && spool.pending == old(spool.pending)
                && (|| !ValidId(id) || FileName(id) !in old(spool.pending)
                    || ReadEnvelope(spool.u, old(spool.pending)[FileName(id)]).None?
                    || |Rewritten(spool.u, old(spool.pending)[FileName(id)], attempt, nextAt)| > spool.u.limits.maxItemBytes)
      ensures ok ==> spool.faults == old(spool.faults) && ValidId(id)
    {
      hide LogRight, Rewritten, ReadEnvelope, ValidId, Sound, Legal, Replay, FileName, IsTempName, NoAckSince;
      ghost var run := spool.run;
      ok := spool.ScheduleRetry(id, attempt, Some(nextAt), pick(spool.pending), partial);
      LogStaysRight(spool.u, sent, spool.origin, run, spool.run);
    }

    method RetryDelayOf(header: string, attempt: nat, now: int) returns (delay: int)
      requires attempt <= MAX_UINT32
      ensures delay == Delay(header, attempt, now, timing)
      ensures Waits(header, attempt, now, timing, delay)
    {
      DelayIsWaited(header, attempt, now, timing, Delay(header, attempt, now, timing));
      hide Waits;
      var asked := ParseRetryAfter(header, now, timing.parseTime);
      if asked.Some? {
        return asked.value;
      }
      var limit := ProbeUploadBackoff(attempt);
      delay := timing.jitter(limit);
      if delay < 0 {
        delay := 0;
      }
      if delay > limit {
        delay := limit;
      }
    }

    /** Enters the reply to an item in the log. */
    ghost method LogReply(id: string, item: Item, reply: Reply)
      requires Valid() && FileName(id) in spool.pending && ReadEnvelope(spool.u, spool.pending[FileName(id)]).Some?
      requires item == ItemOf(ReadEnvelope(spool.u, spool.pending[FileName(id)]).value)
      modifies this`sent
      ensures Valid() && sent == old(sent) + [Sent(id, item.body, reply, id in spool.births)]
      ensures id in spool.births ==> item.body == spool.births[id].body
    {
      hide LogRight, Sound, Legal, Replay, ReadEnvelope;
      spool.NowSound();
      if id in spool.births {
        KnownBody(spool.u, spool.Now(), id);
      }
      LogOneMore(sent, spool.origin, spool.Now(), Sent(id, item.body, reply, id in spool.births));
      sent := sent + [Sent(id, item.body, reply, id in spool.births)];
    }

    /** Finds the oldest due item and sends it. `net` is what the Controller
        would answer to a body. */
    method SendOldest(now: int, net: string -> Reply, cancelled: bool)
      returns (worked: bool, outcome: Outcome, id: string, item: Item, reply: Reply)
      requires Valid() && 0 < now <= MAX_INT64 - MAX_BACKOFF
      modifies this, spool
      ensures Valid() && spool.faults >= old(spool.faults) && spool.births == old(spool.births)
      ensures NoAckSince(old(spool.run), spool.run)
      ensures cancelled ==> !worked && outcome.Cancelled? && spool.Now() == old(spool.Now())
      ensures !worked ==> sent == old(sent) && !Settled(outcome)
      ensures !worked && spool.faults == old(spool.faults) && !cancelled ==>
                UploadStep(spool.u, old(Queue()), Queue(), now, net, timing, "", false, outcome)
      ensures worked ==>
                && sent == old(sent) + [Sent(id, item.body, net(item.body), id in spool.births)] && reply == net(item.body)
                && FileName(id) in spool.pending && IsDue(spool.u, FileName(id), spool.pending[FileName(id)], now)
                && ReadEnvelope(spool.u, spool.pending[FileName(id)]).Some?
                && item == ItemOf(ReadEnvelope(spool.u, spool.pending[FileName(id)]).value) && 0 <= item.attempt <= MAX_UINT32
                && (id in spool.births ==> item.body == spool.births[id].body)
      ensures forall n :: n in spool.pending ==> n in old(spool.pending) && spool.pending[n] == old(spool.pending)[n]
      ensures worked && spool.faults == old(spool.faults) ==>
                && spool.pending == Kept(spool.u, old(spool.pending), now)
                && forall n :: n in spool.pending && IsDue(spool.u, n, spool.pending[n], now) ==>
                     n == FileName(id) || Less(FileName(id), n)
    {
      hide LogRight, UploadStep, Sound, Legal, Replay, View, Due, ReadEnvelope, Kept, Less, IsDue, Live, FileName;
      id, item, reply := "", Item(0, 0, 0, ""), TransportError(true, false);
      if cancelled {
        return false, Cancelled, id, item, reply;
      }
      ghost var s0, run0 := spool.Now(), spool.run;
      spool.NowSound();
      var found := spool.Next(now);
      LogStaysRight(spool.u, sent, spool.origin, run0, spool.run);
      if found.ReadFailed? {
        return false, LocalFailure, id, item, reply;
      }
      if found.Nothing? {
        if spool.faults == old(spool.faults) {
          NothingToDo(spool.u, s0.pending, spool.pending, now, net, timing);
        }
        return false, NoWork, id, item, reply;
      }
      id, item := found.id, found.item;
      FoundReads(spool.u, spool.pending, id, now);
      AttemptTyped(spool.u, spool.pending[FileName(id)]);
      reply := net(item.body);
      LogReply(id, item, reply);
      return true, NoWork, id, item, reply;
    }

    /** The calls that get in while an item is on its way and nobody holds the
        spool's mutex: what they store, clean up or expire is no acknowledgement. */
    method EnqueueMeanwhile(calls: seq<Storing>, pick: map<string, Entry> -> string)
      requires Valid() && PicksFresh(pick) && MayStore(spool.Now(), calls)
      modifies spool
      ensures Valid() && spool.faults >= old(spool.faults) && NoAckSince(old(spool.run), spool.run)
      ensures spool.births.Keys <= old(spool.births.Keys) + StoredIds(calls)
      ensures calls == [] ==> spool.Now() == old(spool.Now()) && spool.faults == old(spool.faults)
      decreases |calls|
    {
      hide LogRight, Sound, Legal, Replay, MayStore, FreshId, IsRandom, StoredIds, FileName, Reports, MakeId, Accepts,
           BatchBody, Kept;
      if calls == [] { return; }
      ghost var run0 := spool.run;
      var call := calls[0];
      FirstCall(spool.Now(), calls);
      var r := spool.Enqueue(call.rounds, call.now, call.random, pick(spool.pending), call.partial, call.free);
      LogStaysRight(spool.u, sent, spool.origin, run0, spool.run);
      MayStoreLater(spool.u, spool.origin, run0, spool.run, calls[1..], {StoredId(call)});
      EnqueueMeanwhile(calls[1..], pick);
    }

    /** Uploads at most one item, the oldest due one. `others` are the calls that
        get in while it is being sent. */
    method UploadOne(now: int, net: string -> Reply, pick: map<string, Entry> -> string, partial: string, cancelled: bool,
                     others: seq<Storing>)
      returns (worked: bool, outcome: Outcome, ghost id: string)
      requires Valid() && PicksFresh(pick) && 0 < now <= MAX_INT64 - MAX_BACKOFF
      requires MayStore(spool.Now(), others)
      modifies this, spool
      // Whatever the others do, every body sent was the stored one and nothing
      // is acknowledged that was not accepted.
      ensures Valid() && spool.faults >= old(spool.faults)
      ensures cancelled ==> !worked && outcome.Cancelled? && spool.Now() == old(spool.Now()) && sent == old(sent)
      ensures !worked ==> sent == old(sent)
      ensures worked ==>
                exists item: Item :: 0 <= item.attempt && sent == old(sent) + [Sent(id, item.body, net(item.body), id in old(spool.births))]
                  && Told(net(item.body), outcome, item.attempt, now, timing)
      ensures worked ==> Settled(outcome) || outcome.Cancelled? || outcome.LocalFailure?
      ensures !worked ==> !Settled(outcome)
      ensures others == [] ==> spool.births == old(spool.births)
      ensures others == [] && worked && Settled(outcome) ==>
                && SettledIn(spool.u, old(spool.pending), spool.pending, id, outcome)
                && IsDue(spool.u, FileName(id), old(spool.pending)[FileName(id)], now)
      ensures others == [] && worked && outcome.RetryScheduled? ==>
                var item := ItemOf(ReadEnvelope(spool.u, old(spool.pending)[FileName(id)]).value);
                && 0 <= item.attempt <= MAX_UINT32 && Judge(net(item.body)).Retry?
                && outcome.nextAt == now + Delay(Judge(net(item.body)).header, NextAttempt(item.attempt), now, timing)
      ensures others == [] && spool.faults == old(spool.faults) && AllOwned(old(spool.Now())) && !cancelled ==>
                UploadStep(spool.u, old(Queue()), Queue(), now, net, timing, id, worked, outcome)
      // By the numbers: what is sent, and whether it is sent again, taken over
      // or rejected.
      ensures !worked && spool.faults == old(spool.faults) && !cancelled ==>
                forall x :: x in old(Queue()) ==> !TimeHasCome(spool.u, old(Queue())[x], now)
      ensures others == [] && spool.faults == old(spool.faults) && AllOwned(old(spool.Now())) && !cancelled && worked ==>
                && OldestSent(spool.u, old(Queue()), now, id) && 0 <= old(Queue())[id].attempt
                && Handled(spool.u, old(Queue()), Queue(), now, id, net(old(Queue())[id].body), timing, outcome)
      ensures others == [] && worked && outcome.Rejected? && FileName(id) in old(spool.pending)
              && Size(old(spool.pending)[FileName(id)]) <= spool.u.limits.maxQuarantineBytes ==>
                && RejectedFile(id, outcome.status, outcome.code) in spool.quarantine
                && spool.quarantine[RejectedFile(id, outcome.status, outcome.code)] == old(spool.pending)[FileName(id)]
      ensures others == [] && worked && outcome.Acknowledged? && id in old(spool.births) ==>
                id in spool.ledger && spool.ledger[id].Acked?
    {
      hide LogRight, UploadStep, Handled, OldestSent, Told, RejectedFile, MayStore, StoredIds, AllOwned, Sound, Legal, Replay, View,
           Due, ReadEnvelope, Kept, Less, Delay, Rewritten, QuarantineBounded, QuarantineName, LeastDue, IsDue, Live, Judge, FileName,
           TimeHasCome;
      var sentId, item, reply;
      ghost var s0, run0 := spool.Now(), spool.run;
      spool.NowSound();
      worked, outcome, sentId, item, reply := SendOldest(now, net, cancelled);
      id := if worked then sentId else "";
      if !worked {
        if spool.faults == old(spool.faults) && !cancelled {
          NothingSent(spool.u, View(spool.u, s0.pending), Queue(), now, net, timing, outcome);
        }
        return;
      }
      ghost var s1, run1 := spool.Now(), spool.run;
      spool.NowSound();
      MayStoreLater(spool.u, spool.origin, run0, run1, others, {});
      SentIsNotNew(s1, others, sentId);
      EnqueueMeanwhile(others, pick);
      BooksAgree(spool.u, s1);
      spool.NowSound();
      BooksAgree(spool.u, spool.Now());
      BodyKept(spool.u, spool.origin, run1, spool.run, sentId, item.body);
      outcome := SettleItem(sentId, item, reply, now, pick, partial);
      if others == [] && spool.faults == old(spool.faults) && AllOwned(s0) {
        StillOwned(spool.u, s0, s1);
        OwnedIsKnown(spool.u, s1, id);
        DirectoryStepIsUploadStep(spool.u, s1, s0.pending, spool.pending, now, net, timing, id, item, outcome);
        StepHandles(spool.u, View(spool.u, s0.pending), View(spool.u, spool.pending), now, net, timing, id, outcome);
      }
    }

    /** A final rejection: the item is quarantined. */
    method RejectItem(id: string, status: int, code: string) returns (outcome: Outcome)
      requires Valid()
      modifies spool
      ensures Valid() && spool.faults >= old(spool.faults) && spool.births == old(spool.births)
      ensures outcome == Rejected(status, code) || outcome.LocalFailure?
      ensures spool.pending == old(spool.pending) || spool.pending == old(spool.pending) - {FileName(id)}
      ensures outcome.Rejected? ==> spool.pending == old(spool.pending) - {FileName(id)}
      ensures spool.faults == old(spool.faults) && ValidId(id) ==> outcome.Rejected?
      ensures outcome.Rejected? && FileName(id) in old(spool.pending) && old(spool.pending)[FileName(id)].File?
              && Size(old(spool.pending)[FileName(id)]) <= spool.u.limits.maxQuarantineBytes ==>
                && QuarantineName(FileName(id), Reason(status, code)) in spool.quarantine
                && spool.quarantine[QuarantineName(FileName(id), Reason(status, code))] == old(spool.pending)[FileName(id)]
                && QuarantineBounded(spool.u.limits, spool.quarantine)
    {
      hide LogRight, Sound, Legal, Replay, ValidId, QuarantineBounded, QuarantineName, FileName;
      ghost var run1 := spool.run;
      var reason := "http-" + Number(status);
      if status == 409 && (code == STALE || code == CONFLICT) {
        reason := reason + ("-" + code);
      }
      var ok := spool.Quarantine(id, reason);
      LogStaysRight(spool.u, sent, spool.origin, run1, spool.run);
      return if ok then Rejected(status, code) else LocalFailure;
    }

    /** The Controller has the item: its file is removed. */
    method AcceptItem(id: string) returns (outcome: Outcome)
      requires Valid() && sent != [] && sent[|sent| - 1].id == id && Accepted(sent[|sent| - 1].reply)
      requires id in spool.births ==> sent[|sent| - 1].body == spool.births[id].body
      modifies spool
      ensures Valid() && spool.faults >= old(spool.faults) && spool.births == old(spool.births)
      ensures outcome == Acknowledged || outcome == LocalFailure
      ensures spool.pending == old(spool.pending) || spool.pending == old(spool.pending) - {FileName(id)}
      ensures outcome.Acknowledged? ==> spool.pending == old(spool.pending) - {FileName(id)}
      ensures spool.faults == old(spool.faults) && ValidId(id) ==> outcome.Acknowledged?
      // It is entered as acknowledged.
      ensures outcome.Acknowledged? && FileName(id) in old(spool.pending) && id in old(spool.births) ==>
                id in spool.ledger && spool.ledger[id].Acked?
    {
      hide LogRight, Sound, Legal, Replay, ValidId, FileName;
      spool.NowSound();
      AckedInBooks(spool.u, spool.Now(), id);
      LogAcked(spool.u, sent, spool.origin, spool.Now(), id);
      var ok := spool.Ack(id);
      return if ok then Acknowledged else LocalFailure;
    }

    /** Does what the reply to an item that was sent asks for, wherever the item
        is by now. */
    method SettleItem(id: string, item: Item, reply: Reply, now: int, pick: map<string, Entry> -> string, partial: string)
      returns (outcome: Outcome)
      requires Valid() && PicksFresh(pick) && 0 < now <= MAX_INT64 - MAX_BACKOFF
      requires 0 <= item.attempt <= MAX_UINT32
      requires sent != [] && sent[|sent| - 1].id == id && sent[|sent| - 1].body == item.body && sent[|sent| - 1].reply == reply
      requires id in spool.births ==> item.body == spool.births[id].body
      modifies spool
      ensures Valid() && spool.faults >= old(spool.faults) && spool.births == old(spool.births)
      ensures Settled(outcome) || outcome.Cancelled? || outcome.LocalFailure?
      ensures SettledSo(spool.u, old(spool.pending), spool.pending, now, id, item, reply, timing, outcome,
                        spool.faults == old(spool.faults) && id in old(spool.births))
      // A rejected item's exact bytes are in the quarantine, within its bounds.
      ensures outcome.Rejected? && StillThere(spool.u, old(spool.pending), id)
              && Size(old(spool.pending)[FileName(id)]) <= spool.u.limits.maxQuarantineBytes ==>
                && RejectedFile(id, outcome.status, outcome.code) in spool.quarantine
                && spool.quarantine[RejectedFile(id, outcome.status, outcome.code)] == old(spool.pending)[FileName(id)]
                && QuarantineBounded(spool.u.limits, spool.quarantine)
      // An acknowledged item is entered as such.
      ensures outcome.Acknowledged? && FileName(id) in old(spool.pending) && id in old(spool.births) ==>
                id in spool.ledger && spool.ledger[id].Acked?
    {
      hide LogRight, Sound, Legal, Replay, ReadEnvelope, ValidId, QuarantineBounded, QuarantineName, FileName, Reason, RejectedFile,
           Told, NoAckSince, SettledSo, Number;
      spool.NowSound();
      if StillThere(spool.u, spool.pending, id) {
        ReadIsFile(spool.u, spool.pending[FileName(id)]);
      }
      if id in spool.births {
        KnownIdValid(spool.u, spool.Now(), id);
      }
      ghost var before, faults := spool.pending, spool.faults;
      match reply {
        case TransportError(cancelled, timedOut) =>
          if cancelled {
            SettledByCancel(spool.u, before, now, id, item, reply, timing);
            return Cancelled;
          }
          outcome := RetryItem(id, item, reply, now, "", 0, timedOut, pick, partial);
        case Response(status, retryAfter, code) =>
          if 200 <= status < 300 {
            outcome := AcceptItem(id);
            SettledByRemoval(spool.u, before, spool.pending, now, id, item, reply, timing, outcome,
                             spool.faults == faults && id in spool.births);
            return;
          }
          if IsRetryableStatus(status) {
            outcome := RetryItem(id, item, reply, now, retryAfter, status, false, pick, partial);
            return;
          }
          RejectedName(id, status, code);
          outcome := RejectItem(id, status, code);
          SettledByRemoval(spool.u, before, spool.pending, now, id, item, reply, timing, outcome,
                           spool.faults == faults && id in spool.births);
      }
    }

    method RetryItem(id: string, item: Item, reply: Reply, now: int, header: string, status: int, timedOut: bool,
                     pick: map<string, Entry> -> string, partial: string) returns (outcome: Outcome)
      requires Valid() && PicksFresh(pick) && 0 < now <= MAX_INT64 - MAX_BACKOFF
      requires 0 <= item.attempt <= MAX_UINT32
      requires Judge(reply) == Retry(header, status)
      modifies spool
      ensures Valid() && spool.faults >= old(spool.faults) && spool.births == old(spool.births)
      ensures outcome.RetryScheduled? || outcome.LocalFailure?
      ensures SettledSo(spool.u, old(spool.pending), spool.pending, now, id, item, reply, timing, outcome,
                        spool.faults == old(spool.faults) && id in old(spool.births))
    {
      hide LogRight, Sound, Legal, Replay, ReadEnvelope, ValidId, FileName, Told, NoAckSince, SettledSo, Waits, Delay, Rewritten;
      spool.NowSound();
      if id in spool.births {
        KnownIdValid(spool.u, spool.Now(), id);
      }
      ghost var before, faults := spool.pending, spool.faults;
      outcome := ScheduleRetry(id, item, now, header, status, timedOut, pick, partial);
      ToldRetry(reply, outcome, item.attempt, now, timing);
      SettledByRetry(spool.u, before, spool.pending, now, id, item, reply, timing, outcome,
                     spool.faults == faults && id in spool.births);
    }

    /** The working part of Run at a fixed clock, while nobody else changes the
        spool; `net` are the Controller's answers to the n-th upload. It uploads
        until nothing is due, or until an upload is cancelled or fails locally. If
        no due item gets a delay of zero it ends, after at most as many uploads as
        items were due. */
    method Drain(now: int, net: nat -> string -> Reply, pick: map<string, Entry> -> string, partial: string)
      returns (settled: nat, last: Outcome)
      requires Valid() && PicksFresh(pick) && 0 < now <= MAX_INT64 - MAX_BACKOFF
      requires AllOwned(spool.Now())
      requires NoZeroDelay(spool.u, Queue(), now, net, timing)
      modifies this, spool
      ensures Valid() && spool.faults >= old(spool.faults)
      ensures settled <= |Due(spool.u, old(Queue()), now)|
      ensures !Settled(last)
      ensures spool.faults == old(spool.faults) && last.NoWork? ==> Due(spool.u, Queue(), now) == {}
    {
      hide LogRight, AllOwned, Sound, Legal, Replay, View, Due, IsDue, SettledIn, NoZeroDelay, AfterUpload, Judge, Delay,
           ReadEnvelope, FileName;
      settled := 0;
      while true
        invariant Valid() && spool.faults >= old(spool.faults) && AllOwned(spool.Now())
        invariant NoZeroDelay(spool.u, Queue(), now, net, timing)
        invariant settled + |Due(spool.u, Queue(), now)| <= |Due(spool.u, old(Queue()), now)|
        decreases |Due(spool.u, Queue(), now)|
      {
        ghost var s, queue := spool.Now(), Queue();
        spool.NowSound();
        var worked;
        ghost var id;
        worked, last, id := UploadOne(now, net(settled), pick, partial, false, []);
        spool.NowSound();
        if !worked || last.Cancelled? || last.LocalFailure? {
          DueOfLive(spool.u, queue, now);
          break;
        }
        SettledWasThere(spool.u, s.pending, spool.pending, id, last);
        SentIsGated(spool.u, s.pending, now, net, settled, timing, id);
        SettledShrinks(spool.u, s, spool.Now(), now, id, last);
        SettledKeepsDue(spool.u, s, spool.Now(), now, id, last);
        FewerDue(spool.u, queue, Queue(), now, net, timing);
        settled := settled + 1;
      }
    }
  }
}
