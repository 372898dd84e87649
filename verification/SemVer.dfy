/** The version order of the release gate (scripts/check-release-policy.sh)
    against the precedence of SemVer 2.0.0, section 11. */
module SemVer {
  import opened Text

  datatype Version = Version(major: nat, minor: nat, patch: nat, prerelease: Option<seq<string>>)

  // ------------------------------------------------------------------ parsing

  /** s.split(c) */
  function SplitOn(s: string, c: char): (parts: seq<string>)
    ensures parts != []
    ensures forall i :: 0 <= i < |parts| ==> c !in parts[i]
    decreases |s|
  {
    var n := UpTo(s, c);
    if n == |s| then [s] else [s[..n]] + SplitOn(s[n + 1..], c)
  }

  predicate IdentifierChar(c: char) {
    '0' <= c <= '9' || 'A' <= c <= 'Z' || 'a' <= c <= 'z' || c == '-'
  }

  /** [0-9A-Za-z-]+ */
  predicate BuildIdentifier(s: string) {
    s != "" && forall i :: 0 <= i < |s| ==> IdentifierChar(s[i])
  }

  /** 0|[1-9][0-9]* */
  predicate Numeral(s: string) {
    s != "" && AllDigits(s) && (|s| > 1 ==> s[0] != '0')
  }

  /** 0|[1-9][0-9]*|[0-9]*[A-Za-z-][0-9A-Za-z-]* */
  predicate Identifier(s: string) {
    BuildIdentifier(s) && (AllDigits(s) ==> Numeral(s))
  }

  predicate AllIdentifiers(parts: seq<string>) {
    forall i :: 0 <= i < |parts| ==> Identifier(parts[i])
  }

  predicate AllBuildIdentifiers(parts: seq<string>) {
    forall i :: 0 <= i < |parts| ==> BuildIdentifier(parts[i])
  }

  /** A tag without its build metadata. */
  function Core(text: string): string {
    text[..UpTo(text, '+')]
  }

  predicate BuildFits(text: string) {
    var n := UpTo(text, '+');
    n < |text| ==> AllBuildIdentifiers(SplitOn(text[n + 1..], '.'))
  }

  function ParseCore(core: string): Option<Version> {
    if core == "" || core[0] != 'v' then None
    else
      var rest := core[1..];
      var n := UpTo(rest, '-');
      var numbers := SplitOn(rest[..n], '.');
      if |numbers| != 3 || !Numeral(numbers[0]) || !Numeral(numbers[1]) || !Numeral(numbers[2]) then None
      else
        var triple := (Value(numbers[0]), Value(numbers[1]), Value(numbers[2]));
        if n == |rest| then Some(Version(triple.0, triple.1, triple.2, None))
        else
          var identifiers := SplitOn(rest[n + 1..], '.');
          if AllIdentifiers(identifiers) then Some(Version(triple.0, triple.1, triple.2, Some(identifiers))) else None
  }

  /** The version a tag denotes; None if it is not strict SemVer with a v. */
  function Parse(text: string): Option<Version> {
    if BuildFits(text) then ParseCore(Core(text)) else None
  }

  predicate Valid(v: Version) {
    v.prerelease.Some? ==> v.prerelease.value != [] && AllIdentifiers(v.prerelease.value)
  }

  lemma ParsedIsValid(text: string)
    ensures Parse(text).Some? ==> Valid(Parse(text).value)
  {
  }

  // ---------------------------------------------------------------- comparing

  function CompareNumbers(a: nat, b: nat): int {
    (if a > b then 1 else 0) - (if a < b then 1 else 0)
  }

  function CompareTexts(a: string, b: string): int {
    (if Less(b, a) then 1 else 0) - (if Less(a, b) then 1 else 0)
  }

  function CompareIdentifiers(x: string, y: string): int
    requires x != "" && y != ""
  {
    if AllDigits(x) && AllDigits(y) then CompareNumbers(Value(x), Value(y))
    else if AllDigits(x) != AllDigits(y) then if AllDigits(x) then -1 else 1
    else CompareTexts(x, y)
  }

  function ComparePrereleases(a: seq<string>, b: seq<string>): int
    requires AllIdentifiers(a) && AllIdentifiers(b)
  {
    if a == [] || b == [] then CompareNumbers(|a|, |b|)
    else if a[0] == b[0] then ComparePrereleases(a[1..], b[1..])
    else CompareIdentifiers(a[0], b[0])
  }

  function CompareCores(a: Version, b: Version): int {
    if a.major != b.major then CompareNumbers(a.major, b.major)
    else if a.minor != b.minor then CompareNumbers(a.minor, b.minor)
    else CompareNumbers(a.patch, b.patch)
  }

  function Compare(a: Version, b: Version): int
    requires Valid(a) && Valid(b)
  {
    if CompareCores(a, b) != 0 then CompareCores(a, b)
    else if a.prerelease.None? || b.prerelease.None? then
      (if a.prerelease.None? then 1 else 0) - (if b.prerelease.None? then 1 else 0)
    else ComparePrereleases(a.prerelease.value, b.prerelease.value)
  }

  // --------------------------------------------------------------- precedence

  predicate CoreBelow(a: Version, b: Version) {
    a.major < b.major
    || (a.major == b.major && (a.minor < b.minor || (a.minor == b.minor && a.patch < b.patch)))
  }

  predicate SameCore(a: Version, b: Version) {
    a.major == b.major && a.minor == b.minor && a.patch == b.patch
  }

  /** Numeric identifiers by value and below all others, others as text. */
  predicate IdentifierBelow(x: string, y: string) {
    if AllDigits(x) then AllDigits(y) ==> Value(x) < Value(y) else !AllDigits(y) && Less(x, y)
  }

  /** The first difference decides after `k` equal identifiers; a longer list
      with no difference is above. */
  predicate DecidedAt(a: seq<string>, b: seq<string>, k: nat) {
    && k <= |a| && k <= |b| && a[..k] == b[..k]
    && ((k == |a| < |b|) || (k < |a| && k < |b| && a[k] != b[k] && IdentifierBelow(a[k], b[k])))
  }

  ghost predicate PrereleaseBelow(a: seq<string>, b: seq<string>) {
    exists k :: 0 <= k <= |a| && DecidedAt(a, b, k)
  }

  /** Precedence, as section 11 of SemVer 2.0.0 defines it. */
  ghost predicate Precedes(a: Version, b: Version) {
    || CoreBelow(a, b)
    || (SameCore(a, b) && a.prerelease.Some? && b.prerelease.None?)
    || (SameCore(a, b) && a.prerelease.Some? && b.prerelease.Some?
        && PrereleaseBelow(a.prerelease.value, b.prerelease.value))
  }

  // ----------------------------------------------- comparing is precedence

  lemma IdentifiersCompared(x: string, y: string)
    requires Identifier(x) && Identifier(y) && x != y
    ensures CompareIdentifiers(x, y) == -1 <==> IdentifierBelow(x, y)
    ensures CompareIdentifiers(x, y) == 1 <==> IdentifierBelow(y, x)
    ensures CompareIdentifiers(x, y) == -1 || CompareIdentifiers(x, y) == 1
  {
    if AllDigits(x) && AllDigits(y) {
      if Value(x) == Value(y) { NumeralInjective(x, y); }
    } else if !AllDigits(x) && !AllDigits(y) {
      LessTotal(x, y);
      if Less(x, y) { LessAsymmetric(x, y); }
    }
  }

  /** An equal first identifier decides nothing. */
  lemma BelowPast(a: seq<string>, b: seq<string>)
    requires a != [] && b != [] && a[0] == b[0]
    ensures PrereleaseBelow(a, b) <==> PrereleaseBelow(a[1..], b[1..])
  {
    hide IdentifierBelow;
    if PrereleaseBelow(a, b) {
      var k :| 0 <= k <= |a| && DecidedAt(a, b, k);
      assert a[1..][..k - 1] == a[..k][1..] && b[1..][..k - 1] == b[..k][1..];
      assert DecidedAt(a[1..], b[1..], k - 1);
    }
    if PrereleaseBelow(a[1..], b[1..]) {
      var k :| 0 <= k <= |a[1..]| && DecidedAt(a[1..], b[1..], k);
      assert a[..k + 1] == [a[0]] + a[1..][..k] && b[..k + 1] == [b[0]] + b[1..][..k];
      assert DecidedAt(a, b, k + 1);
    }
  }

  lemma FirstEqual(a: seq<string>, b: seq<string>, k: nat)
    ensures 0 < k <= |a| && k <= |b| && a[..k] == b[..k] ==> a[0] == b[0]
  {
    if 0 < k <= |a| && k <= |b| {
      assert a[..k][0] == a[0] && b[..k][0] == b[0];
    }
  }

  /** A different first identifier decides, and so does the end of a list. */
  lemma BelowAtOnce(a: seq<string>, b: seq<string>)
    requires a == [] || b == [] || a[0] != b[0]
    ensures PrereleaseBelow(a, b) <==> if a == [] || b == [] then |a| < |b| else IdentifierBelow(a[0], b[0])
  {
    hide IdentifierBelow;
    if PrereleaseBelow(a, b) {
      var k :| 0 <= k <= |a| && DecidedAt(a, b, k);
      FirstEqual(a, b, k);
    }
    if if a == [] || b == [] then |a| < |b| else IdentifierBelow(a[0], b[0]) {
      assert DecidedAt(a, b, 0);
    }
  }

  lemma {:induction false} PrereleasesCompared(a: seq<string>, b: seq<string>)
    requires AllIdentifiers(a) && AllIdentifiers(b)
    ensures ComparePrereleases(a, b) == -1 <==> PrereleaseBelow(a, b)
    ensures ComparePrereleases(a, b) == 1 <==> PrereleaseBelow(b, a)
    ensures ComparePrereleases(a, b) == 0 <==> a == b
    ensures -1 <= ComparePrereleases(a, b) <= 1
  {
    hide IdentifierBelow, CompareIdentifiers, PrereleaseBelow, Identifier;
    if a == [] || b == [] {
      BelowAtOnce(a, b);
      BelowAtOnce(b, a);
    } else if a[0] == b[0] {
      BelowPast(a, b);
      BelowPast(b, a);
      PrereleasesCompared(a[1..], b[1..]);
      assert a == [a[0]] + a[1..] && b == [b[0]] + b[1..];
    } else {
      BelowAtOnce(a, b);
      BelowAtOnce(b, a);
      IdentifiersCompared(a[0], b[0]);
    }
  }

  /** The script's comparison is precedence: negative below, positive above, and
      zero for equal versions only. */
  lemma CompareIsPrecedence(a: Version, b: Version)
    requires Valid(a) && Valid(b)
    ensures Compare(a, b) == -1 <==> Precedes(a, b)
    ensures Compare(a, b) == 1 <==> Precedes(b, a)
    ensures Compare(a, b) == 0 <==> a == b
    ensures -1 <= Compare(a, b) <= 1
  {
    hide PrereleaseBelow, AllIdentifiers, ComparePrereleases;
    if a.prerelease.Some? && b.prerelease.Some? {
      PrereleasesCompared(a.prerelease.value, b.prerelease.value);
    }
  }

  lemma IdentifierBelowTransitive(x: string, y: string, z: string)
    requires IdentifierBelow(x, y) && IdentifierBelow(y, z)
    ensures IdentifierBelow(x, z)
  {
    if !AllDigits(x) { LessTransitive(x, y, z); }
  }

  lemma IdentifierBelowIrreflexive(x: string)
    ensures !IdentifierBelow(x, x)
  {
    LessIrreflexive(x);
  }

  lemma PrereleaseBelowTransitive(a: seq<string>, b: seq<string>, c: seq<string>)
    requires PrereleaseBelow(a, b) && PrereleaseBelow(b, c)
    ensures PrereleaseBelow(a, c)
  {
    var j :| 0 <= j <= |a| && DecidedAt(a, b, j);
    var k :| 0 <= k <= |b| && DecidedAt(b, c, k);
    DecidedTransitive(a, b, c, j, k);
  }

  lemma DecidedTransitive(a: seq<string>, b: seq<string>, c: seq<string>, j: nat, k: nat)
    requires DecidedAt(a, b, j) && DecidedAt(b, c, k)
    ensures DecidedAt(a, c, if j < k then j else k)
  {
    hide IdentifierBelow;
    if j < k {
      assert c[..k][..j] == c[..j] && b[..k][..j] == b[..j];
      assert b[j] == b[..k][j] == c[..k][j] == c[j];
    } else if k < j {
      assert a[..j][..k] == a[..k] && b[..j][..k] == b[..k];
      assert a[k] == a[..j][k] == b[..j][k] == b[k];
    } else if j < |a| {
      IdentifierBelowTransitive(a[j], b[j], c[j]);
      IdentifierBelowIrreflexive(a[j]);
    }
  }

  lemma PrecedesTransitive(a: Version, b: Version, c: Version)
    requires Precedes(a, b) && Precedes(b, c)
    ensures Precedes(a, c)
  {
    hide PrereleaseBelow;
    if a.prerelease.Some? && b.prerelease.Some? && c.prerelease.Some? && SameCore(a, b) && SameCore(b, c) {
      PrereleaseBelowTransitive(a.prerelease.value, b.prerelease.value, c.prerelease.value);
    }
  }

  /** So the comparison is a total preorder on tags: of one sign with itself
      turned round, and transitive. */
  lemma CompareIsPreorder(a: Version, b: Version, c: Version)
    requires Valid(a) && Valid(b) && Valid(c)
    ensures Compare(a, a) == 0 && Compare(b, a) == -Compare(a, b)
    ensures Compare(a, b) <= 0 && Compare(b, c) <= 0 ==> Compare(a, c) <= 0
  {
    hide Compare, Precedes, Valid;
    CompareIsPrecedence(a, a);
    CompareIsPrecedence(a, b);
    CompareIsPrecedence(b, a);
    CompareIsPrecedence(b, c);
    CompareIsPrecedence(a, c);
    if Precedes(a, b) && Precedes(b, c) {
      PrecedesTransitive(a, b, c);
    }
  }

  // ----------------------------------------------------------------- printing

  function JoinOn(parts: seq<string>, c: char): string {
    if parts == [] then "" else if |parts| == 1 then parts[0] else parts[0] + ([c] + JoinOn(parts[1..], c))
  }

  function Triple(v: Version): string {
    JoinOn([Digits(v.major), Digits(v.minor), Digits(v.patch)], '.')
  }

  /** The one tag without build metadata that denotes the version. */
  function Print(v: Version): string {
    ['v'] + (Triple(v) + (if v.prerelease.None? then "" else ['-'] + JoinOn(v.prerelease.value, '.')))
  }

  lemma SplitFirst(s: string, c: char)
    ensures var n := UpTo(s, c);
            n < |s| ==>
              && |SplitOn(s, c)| > 1 && SplitOn(s, c)[0] == s[..n] && SplitOn(s, c)[1..] == SplitOn(s[n + 1..], c)
  {
  }

  lemma {:induction false} JoinOfSplit(s: string, c: char)
    ensures JoinOn(SplitOn(s, c), c) == s
    decreases |s|
  {
    var n := UpTo(s, c);
    if n < |s| {
      SplitFirst(s, c);
      hide SplitOn, UpTo;
      JoinOfSplit(s[n + 1..], c);
      assert s == s[..n] + ([c] + s[n + 1..]);
    }
  }

  lemma {:induction false} UpToEnd(s: string, c: char, rest: string)
    requires c !in s
    ensures UpTo(s + ([c] + rest), c) == |s| && UpTo(s, c) == |s|
  {
    var t := s + ([c] + rest);
    if s == "" {
      assert t == [c] + rest;
    } else {
      assert t[1..] == s[1..] + ([c] + rest);
      assert forall x :: x in s[1..] ==> x in s;
      UpToEnd(s[1..], c, rest);
    }
  }

  lemma {:induction false} SplitOfJoin(parts: seq<string>, c: char)
    requires parts != [] && forall i :: 0 <= i < |parts| ==> c !in parts[i]
    ensures SplitOn(JoinOn(parts, c), c) == parts
  {
    UpToEnd(parts[0], c, JoinOn(parts[1..], c));
    if |parts| > 1 {
      SplitOfJoin(parts[1..], c);
      var s := JoinOn(parts, c);
      assert s[..|parts[0]|] == parts[0] && s[|parts[0]| + 1..] == JoinOn(parts[1..], c);
    }
  }

  lemma DigitsHaveNo(n: nat, c: char)
    requires !IsDigit(c)
    ensures c !in Digits(n)
  {
  }

  /** A tag is its version printed, and its build metadata. */
  lemma CoreIsPrinted(text: string)
    requires Parse(text).Some?
    ensures Print(Parse(text).value) == Core(text)
  {
    hide UpTo, SplitOn, Value, Digits, AllIdentifiers, JoinOn;
    var core := Core(text);
    var rest := core[1..];
    var n := UpTo(rest, '-');
    var numbers := SplitOn(rest[..n], '.');
    JoinOfSplit(rest[..n], '.');
    NumeralCanonical(numbers[0]);
    NumeralCanonical(numbers[1]);
    NumeralCanonical(numbers[2]);
    assert numbers == [numbers[0], numbers[1], numbers[2]];
    assert core == ['v'] + rest;
    if n < |rest| {
      JoinOfSplit(rest[n + 1..], '.');
      assert rest == rest[..n] + (['-'] + rest[n + 1..]);
    } else {
      assert rest == rest[..n] + "";
    }
  }

  lemma {:induction false} JoinHasNo(parts: seq<string>, separator: char, c: char)
    requires c != separator && forall i :: 0 <= i < |parts| ==> c !in parts[i]
    ensures c !in JoinOn(parts, separator)
  {
    if |parts| > 1 { JoinHasNo(parts[1..], separator, c); }
  }

  lemma IdentifierHasNo(s: string, c: char)
    requires Identifier(s) && !IdentifierChar(c)
    ensures c !in s
  {
  }

  lemma TripleParts(v: Version, c: char)
    requires !IsDigit(c)
    ensures c != '.' ==> c !in Triple(v)
    ensures SplitOn(Triple(v), '.') == [Digits(v.major), Digits(v.minor), Digits(v.patch)]
  {
    var parts := [Digits(v.major), Digits(v.minor), Digits(v.patch)];
    hide Digits;
    DigitsHaveNo(v.major, c);
    DigitsHaveNo(v.minor, c);
    DigitsHaveNo(v.patch, c);
    if c != '.' { JoinHasNo(parts, '.', c); }
    DigitsHaveNo(v.major, '.');
    DigitsHaveNo(v.minor, '.');
    DigitsHaveNo(v.patch, '.');
    SplitOfJoin(parts, '.');
  }

  lemma {:induction false} DigitsAreNumeral(n: nat)
    ensures Numeral(Digits(n)) && Value(Digits(n)) == n
  {
    ValueOfDigits(n);
    if n >= 10 { DigitsAreNumeral(n / 10); }
  }

  lemma ParseCoreOfPrint(v: Version)
    requires Valid(v)
    ensures ParseCore(Print(v)) == Some(v)
  {
    hide Digits, Value, Numeral, JoinOn, SplitOn, UpTo, Identifier, Triple;
    var text, t := Print(v), Triple(v);
    TripleParts(v, '-');
    DigitsAreNumeral(v.major);
    DigitsAreNumeral(v.minor);
    DigitsAreNumeral(v.patch);
    UpToEnd(t, '-', if v.prerelease.None? then "" else JoinOn(v.prerelease.value, '.'));
    if v.prerelease.None? {
      assert text[1..] == t && t[..|t|] == t;
    } else {
      var pre := v.prerelease.value;
      assert text[1..] == t + (['-'] + JoinOn(pre, '.'));
      assert text[1..][..|t|] == t && text[1..][|t| + 1..] == JoinOn(pre, '.');
      forall i | 0 <= i < |pre| ensures '.' !in pre[i] { IdentifierHasNo(pre[i], '.'); }
      SplitOfJoin(pre, '.');
    }
  }

  lemma PrintHasNoPlus(v: Version)
    requires Valid(v)
    ensures '+' !in Print(v)
  {
    hide JoinOn, Identifier, Triple;
    TripleParts(v, '+');
    if v.prerelease.Some? {
      var pre := v.prerelease.value;
      forall i | 0 <= i < |pre| ensures '+' !in pre[i] { IdentifierHasNo(pre[i], '+'); }
      JoinHasNo(pre, '.', '+');
    }
  }

  /** Every version is denoted by the tag it prints as. */
  lemma ParseOfPrint(v: Version)
    requires Valid(v)
    ensures Parse(Print(v)) == Some(v)
  {
    hide Print, ParseCore, Valid, UpTo;
    PrintHasNoPlus(v);
    ParseCoreOfPrint(v);
    UpToEnd(Print(v), '+', "");
    assert Print(v)[..|Print(v)|] == Print(v);
  }

  /** Letters, digits and hyphens of ASCII. */
  predicate TagText(s: string) {
    s != "" && forall i :: 0 <= i < |s| ==>
      '0' <= s[i] <= '9' || 'A' <= s[i] <= 'Z' || 'a' <= s[i] <= 'z' || s[i] == '-'
  }

  /** Of these; and a number only without zeros in front. */
  predicate StrictIdentifier(s: string) {
    TagText(s) && (s == "0" || s[0] != '0' || exists i :: 0 <= i < |s| && !('0' <= s[i] <= '9'))
  }

  lemma StrictIff(s: string)
    ensures TagText(s) <==> BuildIdentifier(s)
    ensures StrictIdentifier(s) <==> Identifier(s)
  {
  }

  /** The tag of a version with build metadata, which may be empty. */
  function TagOf(v: Version, build: seq<string>): string {
    "v" + (Digits(v.major) + ("." + (Digits(v.minor) + ("." + (Digits(v.patch)
    + ((if v.prerelease.None? then "" else "-" + JoinOn(v.prerelease.value, '.'))
       + (if build == [] then "" else "+" + JoinOn(build, '.'))))))))
  }

  ghost predicate StrictParts(v: Version, build: seq<string>) {
    && (v.prerelease.Some? ==> v.prerelease.value != [])
    && (v.prerelease.Some? ==> forall i :: 0 <= i < |v.prerelease.value| ==> StrictIdentifier(v.prerelease.value[i]))
    && (forall i :: 0 <= i < |build| ==> TagText(build[i]))
  }

  lemma StrictPartsIff(v: Version, build: seq<string>)
    ensures StrictParts(v, build) <==> Valid(v) && AllBuildIdentifiers(build)
  {
    forall s: string ensures TagText(s) <==> BuildIdentifier(s)
                     ensures StrictIdentifier(s) <==> Identifier(s)
    {
      StrictIff(s);
    }
    hide TagText, BuildIdentifier, StrictIdentifier, Identifier;
  }

  lemma TagIsPrint(v: Version, build: seq<string>)
    ensures TagOf(v, build) == Print(v) + (if build == [] then "" else "+" + JoinOn(build, '.'))
  {
    hide Digits, JoinOn;
    TripleIs(v);
  }

  lemma TripleIs(v: Version)
    ensures Triple(v) == Digits(v.major) + ("." + (Digits(v.minor) + ("." + Digits(v.patch))))
  {
    hide Digits;
    assert [Digits(v.major), Digits(v.minor), Digits(v.patch)][1..] == [Digits(v.minor), Digits(v.patch)];
    assert [Digits(v.minor), Digits(v.patch)][1..] == [Digits(v.patch)];
    assert JoinOn([Digits(v.minor), Digits(v.patch)], '.') == Digits(v.minor) + ("." + Digits(v.patch));
  }

  lemma TagParses(v: Version, build: seq<string>)
    requires Valid(v) && AllBuildIdentifiers(build)
    ensures Parse(TagOf(v, build)) == Some(v)
  {
    hide Print, ParseCore, Valid, UpTo, TagOf, JoinOn, SplitOn;
    TagIsPrint(v, build);
    PrintHasNoPlus(v);
    ParseCoreOfPrint(v);
    var core, text := Print(v), TagOf(v, build);
    UpToEnd(core, '+', JoinOn(build, '.'));
    if build == [] {
      assert text == core && core[..|core|] == core;
    } else {
      forall i | 0 <= i < |build| ensures '.' !in build[i] {
        assert BuildIdentifier(build[i]);
      }
      SplitOfJoin(build, '.');
      assert text == core + (['+'] + JoinOn(build, '.'));
      assert text[..|core|] == core && text[|core| + 1..] == JoinOn(build, '.');
    }
  }

  lemma ParsedIsTag(text: string) returns (build: seq<string>)
    requires Parse(text).Some?
    ensures AllBuildIdentifiers(build) && text == TagOf(Parse(text).value, build)
  {
    hide Print, ParseCore, Valid, UpTo, TagOf, JoinOn, SplitOn, BuildIdentifier;
    CoreIsPrinted(text);
    var n := UpTo(text, '+');
    build := [];
    if n < |text| {
      build := SplitOn(text[n + 1..], '.');
      JoinOfSplit(text[n + 1..], '.');
      assert text == text[..n] + ("+" + text[n + 1..]);
    }
    TagIsPrint(Parse(text).value, build);
  }

  /** A text is read as a version exactly if it is one of the version's tags, with
      or without build metadata. */
  lemma ParseIff(text: string, v: Version)
    ensures Parse(text) == Some(v) <==> exists build :: StrictParts(v, build) && text == TagOf(v, build)
  {
    hide Parse, TagOf, StrictParts, Valid, AllBuildIdentifiers;
    if Parse(text) == Some(v) {
      var build := ParsedIsTag(text);
      ParsedIsValid(text);
      StrictPartsIff(v, build);
    }
    forall build | StrictParts(v, build) && text == TagOf(v, build) ensures Parse(text) == Some(v) {
      StrictPartsIff(v, build);
      TagParses(v, build);
    }
  }

  /** Two tags compare equal exactly when they agree apart from build
      metadata. */
  lemma ZeroIffSameCore(s: string, t: string)
    requires Parse(s).Some? && Parse(t).Some?
    ensures Compare(Parse(s).value, Parse(t).value) == 0 <==> Core(s) == Core(t)
  {
    ParsedIsValid(s);
    ParsedIsValid(t);
    hide Print, Core, Compare, Valid, ParseCore;
    CompareIsPrecedence(Parse(s).value, Parse(t).value);
    CoreIsPrinted(s);
    CoreIsPrinted(t);
  }

  // --------------------------------------------------------------------- gate

  /** The existing tags that are versions and not below the released one. */
  function NotLower(tags: seq<string>, current: string): (r: seq<string>)
    requires Parse(current).Some?
  {
    if tags == [] then []
    else
      var tag := tags[0];
      ParsedIsValid(tag);
      ParsedIsValid(current);
      var keep := tag != current && Parse(tag).Some? && Compare(Parse(tag).value, Parse(current).value) >= 0;
      (if keep then [tag] else []) + NotLower(tags[1..], current)
  }

  predicate Gate(tags: seq<string>, current: string) {
    Parse(current).Some? && NotLower(tags, current) == []
  }

  /** The gate lets a tag pass exactly if every other version is below it. */
  lemma {:induction false} GateIff(tags: seq<string>, current: string)
    requires Parse(current).Some?
    ensures Gate(tags, current) <==>
            forall tag :: tag in tags && tag != current && Parse(tag).Some? ==> Precedes(Parse(tag).value, Parse(current).value)
  {
    hide Compare, Precedes, Parse, Valid;
    if tags != [] {
      var tag := tags[0];
      GateIff(tags[1..], current);
      if Parse(tag).Some? {
        ParsedIsValid(tag);
        ParsedIsValid(current);
        CompareIsPrecedence(Parse(tag).value, Parse(current).value);
        Asymmetric(Parse(tag).value, Parse(current).value);
      }
      assert tags == [tag] + tags[1..];
    }
  }

  lemma Asymmetric(a: Version, b: Version)
    requires Valid(a) && Valid(b)
    ensures !(Precedes(a, b) && Precedes(b, a)) && !Precedes(a, a)
  {
    hide Compare, Precedes, Valid;
    CompareIsPrecedence(a, b);
    CompareIsPrecedence(a, a);
  }

  /** Releases that each passed the gate against the ones before, whatever other
      tags there were, have strictly increasing precedence. */
  lemma ReleasesIncrease(releases: seq<string>, tagsAt: seq<seq<string>>, i: nat, j: nat)
    requires |tagsAt| == |releases| && i < j < |releases| && releases[i] != releases[j]
    requires forall k :: 0 <= k < |releases| ==> Gate(tagsAt[k], releases[k])
    requires forall m, k :: 0 <= m < k < |releases| ==> releases[m] in tagsAt[k]
    ensures Parse(releases[i]).Some? && Parse(releases[j]).Some?
    ensures Precedes(Parse(releases[i]).value, Parse(releases[j]).value)
  {
    hide Parse, Precedes, NotLower;
    assert Gate(tagsAt[i], releases[i]) && Gate(tagsAt[j], releases[j]);
    GateIff(tagsAt[j], releases[j]);
  }
}
