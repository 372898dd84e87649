/** Probe rounds and the batch they are reported in (internal/agent/types.go,
    client.go, probe_spool.go). */
module ProbeRounds {
  import opened Text
  import opened Envelopes

  /** `ts` is in nanoseconds. */
  datatype ProbeRound = ProbeRound(
    roundId: string, configVersion: int, targetId: string, ts: int, kind: string, samples: seq<Sample>)

  /** All rounds carry the same version, and it is not negative. */
  predicate CommonVersion(rounds: seq<ProbeRound>, version: int) {
    version >= 0 && forall i :: 0 <= i < |rounds| ==> rounds[i].configVersion == version
  }

  method CommonProbeConfigVersion(rounds: seq<ProbeRound>) returns (r: Option<int>)
    ensures rounds == [] ==> r == Some(0)
    ensures rounds != [] ==> (r.Some? <==> CommonVersion(rounds, rounds[0].configVersion))
    ensures rounds != [] && r.Some? ==> r.value == rounds[0].configVersion
  {
    if |rounds| == 0 {
      return Some(0);
    }
    var version := rounds[0].configVersion;
    if version < 0 {
      return None;
    }
    for k := 1 to |rounds|
      invariant forall i :: 0 <= i < k ==> rounds[i].configVersion == version
    {
      if rounds[k].configVersion < 0 {
        return None;
      }
      if version != rounds[k].configVersion {
        return None;
      }
    }
    return Some(version);
  }

  function Seconds(ts: int): int {
    ts / 1_000_000_000
  }

  function PayloadOf(r: ProbeRound): RoundPayload {
    RoundPayload(r.roundId, r.targetId, Seconds(r.ts), r.kind, r.samples)
  }

  function Payloads(rounds: seq<ProbeRound>): (r: seq<RoundPayload>)
    ensures |r| == |rounds| && forall i :: 0 <= i < |r| ==> r[i] == PayloadOf(rounds[i])
  {
    seq(|rounds|, i requires 0 <= i < |rounds| => PayloadOf(rounds[i]))
  }

  /** A batch can be stored if it has rounds and they agree on the version. */
  predicate Reportable(rounds: seq<ProbeRound>) {
    rounds != [] && CommonVersion(rounds, rounds[0].configVersion)
  }

  function BatchBody(codec: Codec, rounds: seq<ProbeRound>): string
    requires rounds != []
  {
    codec.marshal(Payload(rounds[0].configVersion, Payloads(rounds)))
  }

  /** A payload says of each round what the round says, its time in whole
      seconds. */
  predicate Reports(p: Payload, rounds: seq<ProbeRound>) {
    && |p.rounds| == |rounds|
    && forall i :: 0 <= i < |rounds| ==>
         && rounds[i].configVersion == p.configVersion
         && p.rounds[i].roundId == rounds[i].roundId
         && p.rounds[i].targetId == rounds[i].targetId
         && p.rounds[i].kind == rounds[i].kind
         && p.rounds[i].samples == rounds[i].samples
         && p.rounds[i].ts * 1_000_000_000 <= rounds[i].ts < (p.rounds[i].ts + 1) * 1_000_000_000
  }

  /** The rounds a payload speaks of. */
  function Unpack(p: Payload): (r: seq<ProbeRound>)
    ensures |r| == |p.rounds|
  {
    seq(|p.rounds|, i requires 0 <= i < |p.rounds| =>
      var q := p.rounds[i];
      ProbeRound(roundId := q.roundId, configVersion := p.configVersion, targetId := q.targetId,
                 ts := q.ts * 1_000_000_000, kind := q.kind, samples := q.samples))
  }

  /** A round without the fraction of its second. */
  function WholeSecond(r: ProbeRound): ProbeRound {
    r.(ts := r.ts - r.ts % 1_000_000_000)
  }

  /** A payload that reports rounds speaks of exactly these, up to the fraction
      of a second; so two lists of rounds with one payload differ in nothing
      else. */
  lemma UnpackGivesBack(p: Payload, rounds: seq<ProbeRound>)
    requires Reports(p, rounds)
    ensures Unpack(p) == seq(|rounds|, i requires 0 <= i < |rounds| => WholeSecond(rounds[i]))
  {
    forall i | 0 <= i < |rounds| ensures Unpack(p)[i] == WholeSecond(rounds[i]) {
      SameSecond(p.rounds[i].ts, rounds[i].ts);
    }
  }

  lemma SameSecond(seconds: int, ts: int)
    requires seconds * 1_000_000_000 <= ts < (seconds + 1) * 1_000_000_000
    ensures seconds * 1_000_000_000 == ts - ts % 1_000_000_000
  {
  }

  /** The body of a batch is a payload that reports it. */
  lemma BatchReports(codec: Codec, rounds: seq<ProbeRound>)
    requires Reportable(rounds)
    ensures Reports(Payload(rounds[0].configVersion, Payloads(rounds)), rounds)
    ensures exists p :: Reports(p, rounds) && BatchBody(codec, rounds) == codec.marshal(p)
  {
    var p := Payload(rounds[0].configVersion, Payloads(rounds));
    assert Reports(p, rounds);
    assert BatchBody(codec, rounds) == codec.marshal(p);
  }

  /** Every accepted batch comes out of its payload again. */
  lemma PayloadRoundTrip(rounds: seq<ProbeRound>)
    requires Reportable(rounds)
    ensures Unpack(Payload(rounds[0].configVersion, Payloads(rounds)))
            == seq(|rounds|, i requires 0 <= i < |rounds| => WholeSecond(rounds[i]))
  {
    var p := Payload(rounds[0].configVersion, Payloads(rounds));
    assert Reports(p, rounds);
    UnpackGivesBack(p, rounds);
  }

  method MarshalProbeResults(codec: Codec, rounds: seq<ProbeRound>) returns (r: Option<string>)
    ensures r.Some? <==>
      rounds != [] && forall i :: 0 <= i < |rounds| ==> rounds[i].configVersion == rounds[0].configVersion >= 0
    ensures r.Some? <==> Reportable(rounds)
    ensures r.Some? ==> r.value == BatchBody(codec, rounds)
    ensures r.Some? ==> exists p :: Reports(p, rounds) && r.value == codec.marshal(p)
  {
    if Reportable(rounds) {
      BatchReports(codec, rounds);
    }
    if |rounds| == 0 {
      return None;
    }
    var version := CommonProbeConfigVersion(rounds);
    if version.None? {
      return None;
    }
    var payloads: seq<RoundPayload> := [];
    for k := 0 to |rounds|
      invariant |payloads| == k
      invariant forall i :: 0 <= i < k ==> payloads[i] == PayloadOf(rounds[i])
    {
      var round := rounds[k];
      payloads := payloads + [RoundPayload(round.roundId, round.targetId, Seconds(round.ts), round.kind, round.samples)];
    }
    assert payloads == Payloads(rounds);
    return Some(codec.marshal(Payload(version.value, payloads)));
  }
}
