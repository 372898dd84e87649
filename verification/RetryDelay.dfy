/** How long a failed upload waits (internal/agent/probe_uploader.go). All
    durations are nanoseconds in an int64, as Go's time.Duration. */
module RetryDelay {
  import opened Text

  const SECOND: int := 1_000_000_000
  const CAP_SECONDS: int := 300
  const MAX_BACKOFF: int := CAP_SECONDS * SECOND

  /** The value an int64 holds after arithmetic gave `n`. */
  function Wrap64(n: int): (r: int)
    ensures -MAX_INT64 - 1 <= r <= MAX_INT64
    ensures -MAX_INT64 - 1 <= n <= MAX_INT64 ==> r == n
    ensures (r - n) % 0x1_0000_0000_0000_0000 == 0
  {
    (n + 0x8000_0000_0000_0000) % 0x1_0000_0000_0000_0000 - 0x8000_0000_0000_0000
  }

  // ------------------------------------------------------------------ backoff

  function Pow2(k: nat): (p: nat)
    ensures p >= 1
  {
    if k == 0 then 1 else 2 * Pow2(k - 1)
  }

  lemma {:induction false} Pow2Monotone(j: nat, k: nat)
    requires j <= k
    ensures Pow2(j) <= Pow2(k)
  {
    if j < k { Pow2Monotone(j, k - 1); }
  }

  /** One second doubled for every attempt after the first, at most five
      minutes. */
  function Backoff(attempt: nat): int {
    Min(Pow2(if attempt == 0 then 0 else attempt - 1), CAP_SECONDS) * SECOND
  }

  lemma BackoffRange(attempt: nat)
    ensures SECOND <= Backoff(attempt) <= MAX_BACKOFF
  {
  }

  /** The doubling loop computes the closed form for every uint32, and never
      leaves int64. */
  method ProbeUploadBackoff(attempt: nat) returns (delay: int)
    requires attempt <= MAX_UINT32
    ensures delay == Backoff(attempt)
  {
    var tries := if attempt == 0 then 1 else attempt;
    delay := SECOND;
    var step := 1;
    while step < tries
      invariant 1 <= step <= tries
      invariant delay == Pow2(step - 1) * SECOND
      invariant delay <= 256 * SECOND
    {
      if delay >= MAX_BACKOFF / 2 {
        Pow2Monotone(step, tries - 1);
        return MAX_BACKOFF;
      }
      // 128 is the largest power of two below the 150 second threshold.
      assert Pow2(step - 1) <= 128 by {
        if step - 1 >= 8 { Pow2Monotone(8, step - 1); } else { Pow2Monotone(step - 1, 7); }
      }
      delay := Wrap64(delay * 2);
      step := step + 1;
    }
    if delay > MAX_BACKOFF {
      return MAX_BACKOFF;
    }
  }

  // -------------------------------------------------------------- Retry-After

  /** strconv.ParseInt(s, 10, 64): an optional sign and digits, in range. */
  function ParseInt64(s: string): Option<int> {
    var signed := s != "" && (s[0] == '-' || s[0] == '+');
    var digits := if signed then s[1..] else s;
    if digits == "" || !AllDigits(digits) then None
    else
      var n: int := if signed && s[0] == '-' then 0 - Value(digits) else Value(digits);
      if -MAX_INT64 - 1 <= n <= MAX_INT64 then Some(n) else None
  }

  /** The delay a Retry-After header asks for, or None when it asks for none
      that is understood. `parseTime` stands for http.ParseTime. */
  function ParseRetryAfter(header: string, now: int, parseTime: string -> Option<int>): Option<int> {
    var value := Trim(header);
    if value == "" then None
    else
      var parsed := ParseInt64(value);
      if parsed.Some? then
        var seconds := parsed.value;
        if seconds < 0 then None
        else
          var delay := Wrap64(seconds * SECOND);
          if seconds > CAP_SECONDS || delay > MAX_BACKOFF then Some(MAX_BACKOFF) else Some(delay)
      else if AllDigits(value) then Some(MAX_BACKOFF)
      else
        var when := parseTime(value);
        if when.None? then None
        else
          // time.Sub saturates at the ends of int64; the clamp hides it.
          var delay := when.value - now;
          if delay < 0 then Some(0) else Some(Min(delay, MAX_BACKOFF))
  }

  /** A header that is a number of seconds, of whatever length, is obeyed up to
      five minutes: neither the wrapping int64 product nor the failed parse of
      an overlong number shows through. */
  lemma DelaySecondsObeyed(header: string, now: int, parseTime: string -> Option<int>)
    requires Trim(header) != "" && AllDigits(Trim(header))
    ensures ParseRetryAfter(header, now, parseTime)
            == Some(Min(Value(Trim(header)), CAP_SECONDS) * SECOND)
  {
    var value := Trim(header);
    assert IsDigit(value[0]);
    assert value[0] != '-' && value[0] != '+';
  }

  /** Every delay a header can ask for is within five minutes. */
  lemma RetryAfterRange(header: string, now: int, parseTime: string -> Option<int>)
    ensures var r := ParseRetryAfter(header, now, parseTime);
            r.Some? ==> 0 <= r.value <= MAX_BACKOFF
  {
  }

  /** `s` without its sign. */
  function Unsigned(s: string): string {
    if s != "" && (s[0] == '-' || s[0] == '+') then s[1..] else s
  }

  /** An integer of value zero, with or without a sign. */
  predicate ZeroNumeral(s: string) {
    Unsigned(s) != "" && AllZeros(Unsigned(s))
  }

  predicate AllZeros(s: string) {
    forall i :: 0 <= i < |s| ==> s[i] == '0'
  }

  /** A text that is not read as a number of seconds, in range or not. */
  predicate NoNumber(s: string) {
    ParseInt64(s).None? && !AllDigits(s)
  }

  /** The header is a zero, or no number but a time that has come. */
  predicate AsksForNow(header: string, now: int, parseTime: string -> Option<int>) {
    var value := Trim(header);
    ZeroNumeral(value) || (NoNumber(value) && parseTime(value).Some? && parseTime(value).value <= now)
  }

  /** The header is blank, a negative number, or neither a number nor a time. */
  predicate AsksForNothing(header: string, parseTime: string -> Option<int>) {
    var value := Trim(header);
    || value == ""
    || (value[0] == '-' && ParseInt64(value).Some? && !ZeroNumeral(value))
    || (NoNumber(value) && parseTime(value).None?)
  }

  lemma {:induction false} ValueZeroIff(s: string)
    requires AllDigits(s)
    ensures Value(s) == 0 <==> AllZeros(s)
  {
    if s != "" {
      var init := s[..|s| - 1];
      ValueZeroIff(init);
      assert forall i :: 0 <= i < |init| ==> init[i] == s[i];
    }
  }

  lemma ZeroNumeralIff(s: string)
    ensures ParseInt64(s) == Some(0) <==> ZeroNumeral(s)
    ensures ZeroNumeral(s) ==> s != ""
  {
    if AllDigits(Unsigned(s)) {
      ValueZeroIff(Unsigned(s));
    }
  }

  /** What header asks for a delay of zero, and which asks for none at all, by
      its text. */
  lemma RetryAfterByText(header: string, now: int, parseTime: string -> Option<int>)
    ensures ParseRetryAfter(header, now, parseTime) == Some(0) <==> AsksForNow(header, now, parseTime)
    ensures ParseRetryAfter(header, now, parseTime) == None <==> AsksForNothing(header, parseTime)
  {
    var value := Trim(header);
    ZeroNumeralIff(value);
    NegativeIff(value);
    hide Trim, ZeroNumeral, ParseInt64, Value;
    if ParseInt64(value).Some? && 0 <= ParseInt64(value).value <= CAP_SECONDS {
      assert Wrap64(ParseInt64(value).value * SECOND) == ParseInt64(value).value * SECOND;
    }
  }

  lemma NegativeIff(s: string)
    ensures ParseInt64(s).Some? && ParseInt64(s).value < 0 <==> s != "" && s[0] == '-' && ParseInt64(s).Some? && !ZeroNumeral(s)
  {
    ZeroNumeralIff(s);
  }

  // ----------------------------------------------------------- the retry gate

  /** The attempt counter saturates. */
  function NextAttempt(attempt: nat): (r: nat)
    requires attempt <= MAX_UINT32
    ensures r <= MAX_UINT32
    ensures r == Min(attempt + 1, MAX_UINT32)
  {
    if attempt != MAX_UINT32 then attempt + 1 else attempt
  }

  /** What a retry needs to know of the world around it. `jitter` is any hook,
      faulty ones included. */
  datatype Timing = Timing(parseTime: string -> Option<int>, jitter: int -> int)

  /** The delay of a retry: the header's, or else the jittered backoff. */
  function Delay(header: string, attempt: nat, now: int, timing: Timing): int {
    var asked := ParseRetryAfter(header, now, timing.parseTime);
    if asked.Some? then asked.value
    else
      var limit := Backoff(attempt);
      var jittered := timing.jitter(limit);
      if jittered < 0 then 0 else Min(jittered, limit)
  }

  /** The retry leaves the item due: its header asks for that, or it asks for
      nothing and the hook draws nothing. */
  predicate GatesNow(header: string, attempt: nat, now: int, timing: Timing) {
    || AsksForNow(header, now, timing.parseTime)
    || (AsksForNothing(header, timing.parseTime) && timing.jitter(Backoff(attempt)) <= 0)
  }

  /** Every persisted delay is between now and five minutes from now, and it is
      zero exactly for the headers and draws of `GatesNow`. */
  lemma DelayRange(header: string, attempt: nat, now: int, timing: Timing)
    ensures 0 <= Delay(header, attempt, now, timing) <= MAX_BACKOFF
    ensures Delay(header, attempt, now, timing) == 0 <==> GatesNow(header, attempt, now, timing)
  {
    RetryAfterRange(header, now, timing.parseTime);
    RetryAfterByText(header, now, timing.parseTime);
    BackoffRange(attempt);
    hide Backoff, ParseRetryAfter, AsksForNow, AsksForNothing;
  }

  // ------------------------------------------------- what a delay means

  /** The first attempts wait up to these numbers of seconds, all later ones up
      to 300. */
  const Ladder: seq<int> := [1, 1, 2, 4, 8, 16, 32, 64, 128, 256]

  lemma BackoffLadder(attempt: nat)
    ensures Backoff(attempt) == (if attempt < |Ladder| then Ladder[attempt] else 300) * 1_000_000_000
  {
    assert Pow2(1) == 2 && Pow2(2) == 4 && Pow2(3) == 8 && Pow2(4) == 16 && Pow2(5) == 32;
    assert Pow2(6) == 64 && Pow2(7) == 128 && Pow2(8) == 256 && Pow2(9) == 512;
    if attempt >= 10 {
      Pow2Monotone(9, attempt - 1);
    }
  }

  /** A number of seconds is waited for, up to five minutes. */
  predicate WaitsSeconds(n: nat, delay: int) {
    delay == (if n < 300 then n else 300) * 1_000_000_000
  }

  /** So is a time, unless it has come. */
  predicate WaitsUntil(when: int, now: int, delay: int) {
    && (when <= now ==> delay == 0)
    && (now < when <= now + 300_000_000_000 ==> now + delay == when)
    && (when > now + 300_000_000_000 ==> delay == 300_000_000_000)
  }

  /** What is drawn is waited for, if it lies between nothing and the limit of
      the attempt. */
  predicate WaitsDrawn(attempt: nat, timing: Timing, delay: int) {
    var limit := (if attempt < |Ladder| then Ladder[attempt] else 300) * 1_000_000_000;
    var drawn := timing.jitter(limit);
    && 0 <= delay <= limit
    && (0 <= drawn <= limit ==> delay == drawn)
    && (drawn < 0 ==> delay == 0)
    && (drawn > limit ==> delay == limit)
  }

  /** What a retry must wait, by the text of the header: digits are seconds,
      whatever their number; with a sign they are if they fit into an int64, and
      below zero they ask for nothing; anything else is a time or nothing. */
  predicate Waits(header: string, attempt: nat, now: int, timing: Timing, delay: int) {
    var text := Trim(header);
    var digits := Unsigned(text);
    if text == "" then WaitsDrawn(attempt, timing, delay)
    else if digits != "" && AllDigits(digits) && text[0] != '-' && (digits == text || Value(digits) <= MAX_INT64) then
      WaitsSeconds(Value(digits), delay)
    else if digits != "" && AllDigits(digits) && text[0] == '-' && Value(digits) <= MAX_INT64 + 1 then
      if Value(digits) == 0 then delay == 0 else WaitsDrawn(attempt, timing, delay)
    else if timing.parseTime(text).Some? then WaitsUntil(timing.parseTime(text).value, now, delay)
    else WaitsDrawn(attempt, timing, delay)
  }

  lemma DelayDrawn(header: string, attempt: nat, now: int, timing: Timing)
    requires ParseRetryAfter(header, now, timing.parseTime).None?
    ensures WaitsDrawn(attempt, timing, Delay(header, attempt, now, timing))
  {
    BackoffLadder(attempt);
    BackoffRange(attempt);
    hide Backoff, ParseRetryAfter;
  }

  /** A retry waits that, and there is only one delay like it. */
  lemma DelayIsWaited(header: string, attempt: nat, now: int, timing: Timing, delay: int)
    ensures Waits(header, attempt, now, timing, delay) <==> delay == Delay(header, attempt, now, timing)
  {
    var text := Trim(header);
    if text != "" && AllDigits(text) {
      DelaySecondsObeyed(header, now, timing.parseTime);
    }
    if ParseRetryAfter(header, now, timing.parseTime).None? {
      DelayDrawn(header, attempt, now, timing);
    }
    hide Trim, Value, Backoff, Ladder;
    if text != "" && ParseInt64(text).Some? && 0 <= ParseInt64(text).value <= CAP_SECONDS {
      assert Wrap64(ParseInt64(text).value * SECOND) == ParseInt64(text).value * SECOND;
    }
  }
}
