/** Network speeds from counters that are read now and then
    (internal/agent/metrics.go). Times are nanoseconds; speeds are reals where
    the program has float64. */
module NetworkRate {
  import opened Text
  import opened RetryDelay

  /** A successful reading; `source` names the interfaces that were added up,
      or is empty where that is not known. */
  datatype Totals = Totals(inBytes: int, outBytes: int, source: string)

  datatype Baseline = Baseline(totals: Totals, at: int)

  datatype Tick = Tick(now: int, read: Option<Totals>)

  datatype NetSample = NetSample(totals: Totals, inSpeed: real, outSpeed: real, valid: bool)

  datatype Direction = In | Out

  function Count(t: Totals, d: Direction): int {
    if d.In? then t.inBytes else t.outBytes
  }

  function SpeedOf(s: NetSample, d: Direction): real {
    if d.In? then s.inSpeed else s.outSpeed
  }

  /** time.Sub saturates. */
  function Saturated(n: int): int {
    if n > MAX_INT64 then MAX_INT64 else if n < -MAX_INT64 - 1 then -MAX_INT64 - 1 else n
  }

  function Elapsed(from: int, to: int): (seconds: real)
    ensures seconds > 0.0 <==> from < to
    ensures from <= to ==> seconds * 1_000_000_000.0 == Min(to - from, MAX_INT64) as real
  {
    Saturated(to - from) as real / 1_000_000_000.0
  }

  predicate SameCounter(a: string, b: string) {
    a == "" || b == "" || a == b
  }

  /** nonNegativeInt64 of the wrapped difference. */
  function Gain(before: int, after: int): nat {
    var difference := Wrap64(after - before);
    if difference < 0 then 0 else difference
  }

  /** Whether a reading can be held against the last one. */
  predicate Comparable(b: Option<Baseline>, now: int, t: Totals) {
    b.Some? && SameCounter(t.source, b.value.totals.source) && b.value.at < now
  }

  function Speed(b: Option<Baseline>, now: int, t: Totals, d: Direction): real {
    if Comparable(b, now, t) then Gain(Count(b.value.totals, d), Count(t, d)) as real / Elapsed(b.value.at, now) else 0.0
  }

  function NextBaseline(b: Option<Baseline>, tick: Tick): Option<Baseline> {
    if tick.read.Some? then Some(Baseline(tick.read.value, tick.now)) else b
  }

  /** What the speed between two readings of byte counts stands for. Only a gap
      of more than 292 years is cut short. */
  predicate SpeedMeans(before: int, at: int, after: int, now: int, sourceBefore: string, sourceAfter: string, speed: real) {
    0 <= before <= MAX_INT64 && 0 <= after <= MAX_INT64 ==>
      if at < now && before <= after && (sourceBefore == sourceAfter || sourceBefore == "" || sourceAfter == "") then
        speed * Min(now - at, MAX_INT64) as real == ((after - before) * 1_000_000_000) as real
      else
        speed == 0.0
  }

  lemma SpeedHasMeaning(b: Baseline, now: int, t: Totals, d: Direction)
    ensures SpeedMeans(Count(b.totals, d), b.at, Count(t, d), now, b.totals.source, t.source, Speed(Some(b), now, t, d))
  {
    if 0 <= Count(b.totals, d) <= MAX_INT64 && 0 <= Count(t, d) <= MAX_INT64 {
      GainWithin(Count(b.totals, d), Count(t, d));
      hide Gain, Elapsed;
      if Comparable(Some(b), now, t) {
        var gain := Gain(Count(b.totals, d), Count(t, d)) as real;
        TimesNanos(gain, Elapsed(b.at, now), Min(now - b.at, MAX_INT64) as real);
      }
    }
  }

  /** Bytes by seconds, times nanoseconds. */
  lemma TimesNanos(x: real, seconds: real, nanos: real)
    requires seconds > 0.0 && seconds * 1_000_000_000.0 == nanos
    ensures x / seconds * nanos == x * 1_000_000_000.0
  {
    Undivide(x, seconds);
  }

  const Unread := Totals(0, 0, "")

  /** What is reported at a tick. */
  function Reported(b: Option<Baseline>, tick: Tick): NetSample {
    if tick.read.Some? then
      NetSample(tick.read.value, Speed(b, tick.now, tick.read.value, In), Speed(b, tick.now, tick.read.value, Out), true)
    else
      NetSample(if b.Some? then b.value.totals else Unread, 0.0, 0.0, false)
  }

  class MetricsCollector {
    var previousNet: Totals
    var previousNetAt: int
    var hasNet: bool
    var previousTCP: int
    var previousUDP: int
    var hasConnections: bool

    ghost function Base(): Option<Baseline>
      reads this
    {
      if hasNet then Some(Baseline(previousNet, previousNetAt)) else None
    }

    ghost function Connections(): Option<(int, int)>
      reads this
    {
      if hasConnections then Some((previousTCP, previousUDP)) else None
    }

    constructor ()
      ensures Base() == None && Connections() == None
    {
      previousNet, previousNetAt, hasNet := Unread, 0, false;
      previousTCP, previousUDP, hasConnections := 0, 0, false;
    }

    /** The network and connection part of one state sample. `read` and
        `connections` are what the platform readers returned; a failed network
        reader returns zero totals. */
    method CollectState(now: int, read: Option<Totals>, connections: Option<(int, int)>)
      returns (net: NetSample, tcp: int, udp: int, connectionsValid: bool)
      modifies this
      ensures net == Reported(old(Base()), Tick(now, read))
      // A speed is bytes by the seconds since the last successful reading.
      ensures read.Some? && old(hasNet) ==>
                SpeedMeans(old(previousNet).inBytes, old(previousNetAt), read.value.inBytes, now,
                           old(previousNet).source, read.value.source, net.inSpeed)
      ensures read.Some? && old(hasNet) ==>
                SpeedMeans(old(previousNet).outBytes, old(previousNetAt), read.value.outBytes, now,
                           old(previousNet).source, read.value.source, net.outSpeed)
      ensures read.None? || !old(hasNet) ==> net.inSpeed == net.outSpeed == 0.0
      ensures read.Some? ==> net.valid && net.totals == read.value && previousNet == read.value && previousNetAt == now && hasNet
      ensures read.None? ==> !net.valid && net.totals == if old(hasNet) then old(previousNet) else Totals(0, 0, "")
      ensures Base() == NextBaseline(old(Base()), Tick(now, read))
      ensures connectionsValid <==> connections.Some?
      ensures Connections() == if connections.Some? then connections else old(Connections())
      ensures Connections().Some? ==> (tcp, udp) == Connections().value
    {
      if read.Some? && hasNet {
        SpeedHasMeaning(Baseline(previousNet, previousNetAt), now, read.value, In);
        SpeedHasMeaning(Baseline(previousNet, previousNetAt), now, read.value, Out);
      }
      hide SpeedMeans;
      var totals := if read.Some? then read.value else Unread;
      var inSpeed, outSpeed := 0.0, 0.0;
      if read.Some? {
        if hasNet && (totals.source == "" || previousNet.source == "" || totals.source == previousNet.source) {
          var elapsed := Elapsed(previousNetAt, now);
          if elapsed > 0.0 {
            inSpeed := NonNegative(Wrap64(totals.inBytes - previousNet.inBytes)) as real / elapsed;
            outSpeed := NonNegative(Wrap64(totals.outBytes - previousNet.outBytes)) as real / elapsed;
          }
        }
        previousNet := totals;
        previousNetAt := now;
        hasNet := true;
      } else if hasNet {
        totals := previousNet;
      }
      tcp, udp := 0, 0;
      if connections.Some? {
        tcp, udp := connections.value.0, connections.value.1;
        previousTCP, previousUDP, hasConnections := tcp, udp, true;
      } else if hasConnections {
        tcp, udp := previousTCP, previousUDP;
      }
      return NetSample(totals, inSpeed, outSpeed, read.Some?), tcp, udp, connections.Some?;
    }
  }

  function NonNegative(value: int): nat {
    if value < 0 then 0 else value
  }

  // ------------------------------------------------------------------ traces

  function BaselineAfter(b: Option<Baseline>, trace: seq<Tick>): Option<Baseline>
    decreases trace
  {
    if trace == [] then b else BaselineAfter(NextBaseline(b, trace[0]), trace[1..])
  }

  /** What a reported speed stands for, in bytes by 10^-9: the speed times the
      nanoseconds since the last successful reading, at most 292 years. */
  function Stands(b: Option<Baseline>, tick: Tick, d: Direction): real {
    var since := if b.Some? then Min(tick.now - b.value.at, MAX_INT64) else 0;
    SpeedOf(Reported(b, tick), d) * since as real
  }

  function Accounted(b: Option<Baseline>, trace: seq<Tick>, d: Direction): real
    decreases trace
  {
    if trace == [] then 0.0
    else
      Stands(b, trace[0], d) + Accounted(NextBaseline(b, trace[0]), trace[1..], d)
  }

  /** The successful readings of a trace. */
  function Readings(trace: seq<Tick>): seq<Baseline> {
    if trace == [] then []
    else if trace[0].read.Some? then [Baseline(trace[0].read.value, trace[0].now)] + Readings(trace[1..])
    else Readings(trace[1..])
  }

  /** By how much the counter rose from `b` on, between consecutive readings that
      can be compared; no times and no speeds. */
  function Risen(b: Option<Baseline>, readings: seq<Baseline>, d: Direction): nat
    decreases readings
  {
    if readings == [] then 0
    else
      var r := readings[0];
      (if Comparable(b, r.at, r.totals) then Gain(Count(b.value.totals, d), Count(r.totals, d)) else 0)
      + Risen(Some(r), readings[1..], d)
  }

  lemma Undivide(x: real, y: real)
    requires y > 0.0
    ensures x / y * y == x
  {
  }

  lemma SpeedTimesTime(b: Option<Baseline>, now: int, t: Totals, d: Direction)
    ensures Speed(b, now, t, d) * (if b.Some? then Min(now - b.value.at, MAX_INT64) else 0) as real
            == if Comparable(b, now, t) then Gain(Count(b.value.totals, d), Count(t, d)) as real * 1_000_000_000.0 else 0.0
  {
    hide Gain, Elapsed;
    if Comparable(b, now, t) {
      TimesNanos(Gain(Count(b.value.totals, d), Count(t, d)) as real, Elapsed(b.value.at, now),
                 Min(now - b.value.at, MAX_INT64) as real);
    }
  }

  lemma ReportedSpeed(b: Option<Baseline>, tick: Tick, d: Direction)
    ensures SpeedOf(Reported(b, tick), d) == if tick.read.Some? then Speed(b, tick.now, tick.read.value, d) else 0.0
  {
    hide Speed;
  }

  /** For every trace of readings, failed ones, resets, clock steps and source
      changes included: the reported speeds stand for exactly the bytes by which
      the counter rose between comparable readings. */
  lemma {:induction false} RateConservation(b: Option<Baseline>, trace: seq<Tick>, d: Direction)
    ensures Accounted(b, trace, d) == Risen(b, Readings(trace), d) as real * 1_000_000_000.0
    decreases trace
  {
    hide *;
    if trace == [] {
      NothingAccounted(b, trace, d);
    } else {
      RateConservation(NextBaseline(b, trace[0]), trace[1..], d);
      OneMoreTick(b, trace, d);
    }
  }

  lemma NothingAccounted(b: Option<Baseline>, trace: seq<Tick>, d: Direction)
    requires trace == []
    ensures Accounted(b, trace, d) == Risen(b, Readings(trace), d) as real * 1_000_000_000.0
  {
  }

  lemma OneMoreTick(b: Option<Baseline>, trace: seq<Tick>, d: Direction)
    requires trace != []
    requires var rest := NextBaseline(b, trace[0]);
             Accounted(rest, trace[1..], d) == Risen(rest, Readings(trace[1..]), d) as real * 1_000_000_000.0
    ensures Accounted(b, trace, d) == Risen(b, Readings(trace), d) as real * 1_000_000_000.0
  {
    hide Gain, Comparable, Stands;
    TickStands(b, trace[0], d);
    if trace[0].read.Some? {
      assert Readings(trace)[1..] == Readings(trace[1..]);
    }
  }

  lemma TickStands(b: Option<Baseline>, tick: Tick, d: Direction)
    ensures Stands(b, tick, d) ==
            if tick.read.Some? && Comparable(b, tick.now, tick.read.value)
            then Gain(Count(b.value.totals, d), Count(tick.read.value, d)) as real * 1_000_000_000.0
            else 0.0
  {
    hide Gain, Speed, Comparable, Elapsed, Reported, SpeedOf;
    ReportedSpeed(b, tick, d);
    if tick.read.Some? {
      SpeedTimesTime(b, tick.now, tick.read.value, d);
    }
  }

  /** A trace without its failed reads. */
  function Successes(trace: seq<Tick>): seq<Tick> {
    if trace == [] then []
    else if trace[0].read.Some? then [trace[0]] + Successes(trace[1..])
    else Successes(trace[1..])
  }

  /** Failed reads move nothing: without them the trace leads to the same
      baseline and the same bytes. */
  lemma {:induction false} FailedReadsMoveNothing(b: Option<Baseline>, trace: seq<Tick>, d: Direction)
    ensures BaselineAfter(b, Successes(trace)) == BaselineAfter(b, trace)
    ensures Accounted(b, Successes(trace), d) == Accounted(b, trace, d)
    decreases trace
  {
    hide Stands, Comparable, Gain;
    if trace != [] {
      TickStands(b, trace[0], d);
      FailedReadsMoveNothing(NextBaseline(b, trace[0]), trace[1..], d);
      if trace[0].read.Some? {
        assert Successes(trace)[1..] == Successes(trace[1..]);
      }
    }
  }

  /** Readings of one counter at increasing times; a counter is a byte count. */
  predicate OneCounter(readings: seq<Baseline>, d: Direction) {
    readings == []
    || (&& 0 <= Count(readings[0].totals, d) <= MAX_INT64
        && (|readings| > 1 ==> Comparable(Some(readings[0]), readings[1].at, readings[1].totals))
        && OneCounter(readings[1..], d))
  }

  predicate NeverFalls(readings: seq<Baseline>, d: Direction) {
    |readings| < 2
    || (Count(readings[0].totals, d) <= Count(readings[1].totals, d) && NeverFalls(readings[1..], d))
  }

  lemma GainWithin(before: int, after: int)
    requires 0 <= before <= MAX_INT64 && 0 <= after <= MAX_INT64
    ensures Gain(before, after) == if before <= after then after - before else 0
  {
  }

  lemma {:induction false} RisenIsDifferenceIff(readings: seq<Baseline>, d: Direction)
    requires readings != [] && OneCounter(readings, d)
    ensures var difference := Count(readings[|readings| - 1].totals, d) - Count(readings[0].totals, d);
            && Risen(Some(readings[0]), readings[1..], d) >= difference
            && (Risen(Some(readings[0]), readings[1..], d) == difference <==> NeverFalls(readings, d))
  {
    hide Gain, Comparable;
    if |readings| > 1 {
      RisenIsDifferenceIff(readings[1..], d);
      GainWithin(Count(readings[0].totals, d), Count(readings[1].totals, d));
    }
  }

  lemma FirstReadingRisesNothing(readings: seq<Baseline>, d: Direction)
    requires readings != []
    ensures Risen(None, readings, d) == Risen(Some(readings[0]), readings[1..], d)
  {
  }

  /** So for one counter read at increasing times the speeds add up to the last
      count minus the first, whatever reads failed in between, exactly when the
      counter never fell. */
  lemma SpeedsAddUpIff(trace: seq<Tick>, d: Direction)
    requires Readings(trace) != [] && OneCounter(Readings(trace), d)
    ensures var readings := Readings(trace);
            Accounted(None, trace, d)
            == (Count(readings[|readings| - 1].totals, d) - Count(readings[0].totals, d)) as real * 1_000_000_000.0
            <==> NeverFalls(readings, d)
  {
    hide Readings, Risen, Accounted, OneCounter, NeverFalls;
    RateConservation(None, trace, d);
    FirstReadingRisesNothing(Readings(trace), d);
    RisenIsDifferenceIff(Readings(trace), d);
  }
}
