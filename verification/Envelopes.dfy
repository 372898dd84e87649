/** What a spool file contains (internal/agent/probe_spool.go). One `char`
    stands for one byte. */
module Envelopes {
  import opened Text

  const SCHEMA_VERSION := 1

  datatype Envelope = Envelope(schema: int, created: int, attempt: int, nextAt: int, checksum: string, batch: string)

  /** A decimal integer as json.Marshal prints it. */
  function Number(n: int): string {
    if n < 0 then "-" + Digits(-n) else Digits(n)
  }

  const KEY_SCHEMA := "{\"schema_version\":"
  const KEY_CREATED := ",\"created\":"
  const KEY_ATTEMPT := ",\"attempt\":"
  const KEY_NEXT_AT := ",\"next_at\":"
  const KEY_CHECKSUM := ",\"checksum\":\""
  const KEY_BATCH := "\",\"batch\":"

  /** The envelope as json.Marshal writes it; the batch is raw JSON. */
  function Render(e: Envelope): string {
    KEY_SCHEMA + (Number(e.schema) + (KEY_CREATED + (Number(e.created) + (KEY_ATTEMPT + (Number(e.attempt)
    + (KEY_NEXT_AT + (Number(e.nextAt) + (KEY_CHECKSUM + (e.checksum + (KEY_BATCH + (e.batch + "}")))))))))))
  }

  // --------------------------------------------------------- what is assumed

  datatype Sample = Sample(seqNo: int, success: bool, error: string)
  datatype RoundPayload = RoundPayload(roundId: string, targetId: string, ts: int, kind: string, samples: seq<Sample>)
  datatype Payload = Payload(configVersion: int, rounds: seq<RoundPayload>)

  /** The library functions the spool relies on: the JSON decoder, SHA-256 in
      hexadecimal, JSON compaction, the check that a batch has rounds, and the
      JSON encoder of a batch. */
  datatype Codec = Codec(
    decode: string -> Option<Envelope>,
    checksum: string -> string,
    compact: string -> string,
    hasRounds: string -> bool,
    marshal: Payload -> string)

  predicate InRange(e: Envelope) {
    && e.schema == SCHEMA_VERSION
    && 0 < e.created <= MAX_INT64
    && 0 <= e.attempt <= MAX_UINT32
    && 0 < e.nextAt <= MAX_INT64
  }

  /** An envelope the spool itself would write. */
  predicate Sealed(c: Codec, e: Envelope) {
    && InRange(e)
    && c.compact(e.batch) == e.batch
    && c.hasRounds(e.batch)
    && e.checksum == c.checksum(e.batch)
  }

  /** All that is assumed of them: decoding undoes encoding for the envelopes
      the spool writes, decoded numbers are of their types, and an encoded batch
      is compact and keeps its rounds.
      Nothing is assumed of the checksum but that it is a function. */
  ghost predicate Faithful(c: Codec) {
    && (forall e: Envelope :: Sealed(c, e) ==> c.decode(Render(e)) == Some(e))
    && (forall p: Payload :: p.rounds != [] ==> c.compact(c.marshal(p)) == c.marshal(p) && c.hasRounds(c.marshal(p)))
    && !c.hasRounds("")
    && (forall s: string :: c.decode(s).Some? ==> Typed(c.decode(s).value))
  }

  /** The numbers are of the types the decoder fills: int64 and uint32. */
  predicate Typed(e: Envelope) {
    && -MAX_INT64 - 1 <= e.created <= MAX_INT64
    && -MAX_INT64 - 1 <= e.nextAt <= MAX_INT64
    && 0 <= e.attempt <= MAX_UINT32
  }

  // -------------------------------------------- a decoder that meets the need

  /** `s` without the literal it starts with. */
  function Strip(s: string, literal: string): Option<string> {
    if literal <= s then Some(s[|literal|..]) else None
  }

  function DigitRun(s: string): (n: nat)
    ensures n <= |s| && AllDigits(s[..n])
    ensures n < |s| ==> !IsDigit(s[n])
  {
    if s == "" || !IsDigit(s[0]) then 0 else 1 + DigitRun(s[1..])
  }

  function QuoteAt(s: string): (n: nat)
    ensures n <= |s|
  {
    if s == "" || s[0] == '"' then 0 else 1 + QuoteAt(s[1..])
  }

  /** A number field: its value and what follows it. */
  function TakeNumber(s: string): Option<(nat, string)> {
    var n := DigitRun(s);
    if n == 0 then None else Some((Value(s[..n]), s[n..]))
  }

  function TakeField(s: string, key: string): Option<(nat, string)> {
    var rest := Strip(s, key);
    if rest.None? then None else TakeNumber(rest.value)
  }

  /** Reads back exactly the layout `Render` writes. */
  function DecodeCanonical(s: string): Option<Envelope> {
    var schema := TakeField(s, KEY_SCHEMA);
    if schema.None? then None else
    var created := TakeField(schema.value.1, KEY_CREATED);
    if created.None? then None else
    var attempt := TakeField(created.value.1, KEY_ATTEMPT);
    if attempt.None? then None else
    var nextAt := TakeField(attempt.value.1, KEY_NEXT_AT);
    if nextAt.None? then None else
    DecodeTail(schema.value.0, created.value.0, attempt.value.0, nextAt.value.0, nextAt.value.1)
  }

  function DecodeTail(schema: nat, created: nat, attempt: nat, nextAt: nat, s: string): Option<Envelope> {
    var rest := Strip(s, KEY_CHECKSUM);
    if rest.None? then None else
    var q := QuoteAt(rest.value);
    var batch := Strip(rest.value[q..], KEY_BATCH);
    if batch.None? || batch.value == "" || batch.value[|batch.value| - 1] != '}' then None
    else
      var e := Envelope(schema, created, attempt, nextAt, rest.value[..q], batch.value[..|batch.value| - 1]);
      if Typed(e) then Some(e) else None
  }

  lemma {:induction false} DigitRunOfDigits(d: string, rest: string)
    requires AllDigits(d) && (rest == "" || !IsDigit(rest[0]))
    ensures DigitRun(d + rest) == |d|
  {
    if d == "" {
      assert d + rest == rest;
    } else {
      assert (d + rest)[1..] == d[1..] + rest;
      DigitRunOfDigits(d[1..], rest);
    }
  }

  lemma {:induction false} QuoteAfter(a: string, rest: string)
    requires '"' !in a && rest != "" && rest[0] == '"'
    ensures QuoteAt(a + rest) == |a|
  {
    if a == "" {
      assert a + rest == rest;
    } else {
      assert (a + rest)[1..] == a[1..] + rest;
      QuoteAfter(a[1..], rest);
    }
  }

  lemma FieldReadsBack(key: string, n: nat, rest: string)
    requires rest != "" && !IsDigit(rest[0])
    ensures TakeField(key + (Number(n) + rest), key) == Some((n, rest))
  {
    var tail := Number(n) + rest;
    assert (key + tail)[|key|..] == tail;
    DigitRunOfDigits(Digits(n), rest);
    assert tail[..|Digits(n)|] == Digits(n) && tail[|Digits(n)|..] == rest;
    ValueOfDigits(n);
  }

  lemma TailReadsBack(e: Envelope)
    requires InRange(e) && '"' !in e.checksum
    ensures DecodeTail(e.schema, e.created, e.attempt, e.nextAt,
                       KEY_CHECKSUM + (e.checksum + (KEY_BATCH + (e.batch + "}")))) == Some(e)
  {
    var end := e.batch + "}";
    var afterQuote := KEY_BATCH + end;
    var body := e.checksum + afterQuote;
    assert (KEY_CHECKSUM + body)[|KEY_CHECKSUM|..] == body;
    QuoteAfter(e.checksum, afterQuote);
    assert body[..|e.checksum|] == e.checksum && body[|e.checksum|..] == afterQuote;
    assert afterQuote[|KEY_BATCH|..] == end;
    assert end[..|end| - 1] == e.batch;
  }

  /** Decoding undoes encoding for every envelope the spool can write. */
  lemma CanonicalRoundTrip(e: Envelope)
    requires InRange(e) && '"' !in e.checksum
    ensures DecodeCanonical(Render(e)) == Some(e)
  {
    var t4 := KEY_CHECKSUM + (e.checksum + (KEY_BATCH + (e.batch + "}")));
    var t3 := KEY_NEXT_AT + (Number(e.nextAt) + t4);
    var t2 := KEY_ATTEMPT + (Number(e.attempt) + t3);
    var t1 := KEY_CREATED + (Number(e.created) + t2);
    FieldReadsBack(KEY_SCHEMA, e.schema, t1);
    FieldReadsBack(KEY_CREATED, e.created, t2);
    FieldReadsBack(KEY_ATTEMPT, e.attempt, t3);
    FieldReadsBack(KEY_NEXT_AT, e.nextAt, t4);
    TailReadsBack(e);
  }

  /** So what is assumed of the library functions can be met. */
  lemma FaithfulCodecExists()
    ensures exists c: Codec :: Faithful(c)
  {
    var c := Codec(DecodeCanonical, b => "", b => b, b => b != "", p => "{}");
    forall e: Envelope | Sealed(c, e) ensures c.decode(Render(e)) == Some(e) {
      CanonicalRoundTrip(e);
    }
    assert Faithful(c);
  }

  // ----------------------------------------------------------------- sizes

  /** Rendering with other retry data changes the length by exactly the
      difference in digits. */
  lemma RenderLength(e: Envelope, attempt: int, nextAt: int)
    ensures |Render(e.(attempt := attempt, nextAt := nextAt))|
            == |Render(e)| - |Number(e.attempt)| - |Number(e.nextAt)| + |Number(attempt)| + |Number(nextAt)|
  {
  }

  /** The two retry numbers take between two and twenty-nine digits. */
  lemma RetryDigits(attempt: int, nextAt: int)
    requires 0 <= attempt <= MAX_UINT32 && 0 <= nextAt <= MAX_INT64
    ensures 2 <= |Number(attempt)| + |Number(nextAt)| <= 29
  {
    assert Pow10(10) == 10_000_000_000 by { assert Pow10(5) == 100_000; }
    assert Pow10(19) == 10_000_000_000_000_000_000 by { assert Pow10(13) == 10_000_000_000_000; }
    DigitsLength(attempt, 10);
    DigitsLength(nextAt, 19);
  }
}
