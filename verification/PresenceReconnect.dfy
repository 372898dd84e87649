/** How long the presence connection waits before it reconnects
    (internal/agent/presence.go). Durations are nanoseconds. */
module PresenceReconnect {
  import opened RetryDelay
  import opened Text

  /** The durations a caller may set; the others take their usual values. */
  datatype Durations = Durations(initial: int, maximum: int, stable: int)

  const Usual := Durations(SECOND, 30 * SECOND, 75 * SECOND)

  /** Above it a doubling may leave int64. */
  const MAX_MAXIMUM := 0x4000_0000_0000_0000

  function OrUsual(d: Durations): Durations {
    var initial := if d.initial <= 0 then Usual.initial else d.initial;
    var maximum := if d.maximum <= 0 then Usual.maximum else d.maximum;
    Durations(initial, if maximum < initial then initial else maximum, if d.stable <= 0 then Usual.stable else d.stable)
  }

  /** What the loop works with. */
  predicate InOrder(d: Durations) {
    0 < d.initial <= d.maximum <= MAX_INT64
  }

  /** How many connections in a row, up to the last, were too short, not
      counting the first one and any before a stable one. */
  function Streak(connections: seq<int>, stable: int): nat {
    if |connections| < 2 || connections[|connections| - 1] >= stable then 0
    else Streak(connections[..|connections| - 1], stable) + 1
  }

  /** The initial wait, doubled for each connection of the streak, within the
      maximum. */
  function ReconnectBackoff(d: Durations, streak: nat): int {
    Min(Pow2(streak) * d.initial, d.maximum)
  }

  /** One turn of the doubling. */
  lemma DoubledBackoff(d: Durations, streak: nat)
    requires InOrder(d)
    ensures ReconnectBackoff(d, 0) == d.initial
    ensures ReconnectBackoff(d, streak + 1) == Min(2 * ReconnectBackoff(d, streak), d.maximum)
    ensures d.initial <= ReconnectBackoff(d, streak) <= d.maximum
    ensures ReconnectBackoff(d, streak) >= d.maximum ==> ReconnectBackoff(d, streak + 1) == ReconnectBackoff(d, streak)
  {
    DoubledProduct(Pow2(streak), d.initial);
  }

  lemma DoubledProduct(p: nat, x: int)
    requires p > 0 && x > 0
    ensures 2 * p * x == 2 * (p * x) && p * x >= x
  {
  }

  /** With the usual durations: seconds. */
  lemma UsualBackoff(streak: nat)
    ensures ReconnectBackoff(Usual, streak) == (if streak < 5 then [1, 2, 4, 8, 16][streak] else 30) * 1_000_000_000
  {
    assert Pow2(1) == 2 && Pow2(2) == 4 && Pow2(3) == 8 && Pow2(4) == 16 && Pow2(5) == 32;
    if streak > 5 { Pow2Monotone(5, streak); }
  }

  /** Only the short connections since the last stable one count. */
  lemma {:induction false} StreakSinceStable(before: seq<int>, last: int, short: seq<int>, stable: int)
    requires last >= stable && forall i :: 0 <= i < |short| ==> short[i] < stable
    ensures Streak(before + [last] + short, stable) == |short|
  {
    var all := before + [last] + short;
    if short == [] {
      assert all[|all| - 1] == last;
    } else {
      var init := short[..|short| - 1];
      assert all[|all| - 1] == short[|short| - 1] && all[..|all| - 1] == before + [last] + init;
      StreakSinceStable(before, last, init, stable);
    }
  }

  /** Without a stable one the first connection does not. */
  lemma {:induction false} StreakOfShort(short: seq<int>, stable: int)
    requires short != [] && forall i :: 0 <= i < |short| ==> short[i] < stable
    ensures Streak(short, stable) == |short| - 1
  {
    if |short| > 1 {
      StreakOfShort(short[..|short| - 1], stable);
    }
  }

  /** The reconnect loop until it is cancelled after the last of the given
      connections; `jitter` is what any hook returns in each turn. The waits
      follow from that and from the lengths of the connections alone. */
  method RunPresenceLoop(options: Durations, connections: seq<int>, jitter: (nat, int) -> int) returns (waits: seq<int>)
    requires options.initial <= MAX_INT64 && options.maximum <= MAX_INT64
    ensures |waits| == |connections|
    ensures var d := OrUsual(options);
            d.maximum <= MAX_MAXIMUM ==>
              forall k :: 0 <= k < |waits| ==>
                var backoff := ReconnectBackoff(d, Streak(connections[..k + 1], d.stable));
                waits[k] == Min(Wrap64(backoff + jitter(k, backoff)), d.maximum)
  {
    hide ReconnectBackoff;
    var d := OrUsual(options);
    waits := [];
    var backoff := d.initial;
    DoubledBackoff(d, 0);
    for k := 0 to |connections|
      invariant |waits| == k
      invariant d.maximum <= MAX_MAXIMUM ==> backoff == ReconnectBackoff(d, if k == 0 then 0 else Streak(connections[..k], d.stable) + 1)
      invariant d.maximum <= MAX_MAXIMUM ==>
                  forall i :: 0 <= i < k ==>
                    var b := ReconnectBackoff(d, Streak(connections[..i + 1], d.stable));
                    waits[i] == Min(Wrap64(b + jitter(i, b)), d.maximum)
    {
      ghost var streak := Streak(connections[..k + 1], d.stable);
      assert connections[..k + 1][..k] == connections[..k];
      if connections[k] >= d.stable {
        backoff := d.initial;
      }
      assert d.maximum <= MAX_MAXIMUM ==> backoff == ReconnectBackoff(d, streak);
      var wait := Wrap64(backoff + jitter(k, backoff));
      if wait > d.maximum {
        wait := d.maximum;
      }
      waits := waits + [wait];
      DoubledBackoff(d, streak);
      if backoff < d.maximum {
        backoff := Wrap64(backoff * 2);
        if backoff > d.maximum {
          backoff := d.maximum;
        }
      }
    }
  }
}
