/**
  The helper library of the leaderboard front end: number abbreviation,
  the unit ladder of relative times, rank badges, the language icon table,
  API token validation, the choice of a display name, the activity streak
  and truncation of text.
 */
module Utils {
  import opened Wrappers
  import opened JsBuiltins

  // =====================================================================
  // formatLargeNumber

  /** What the formatter may be handed at run time. */
  datatype LargeNumber =
    | Number(x: real)          // a JavaScript number
    | BigIntBox(text: string)  // an object `{ $bigint: text }`
    | OtherValue               // an object without `$bigint`, or any other value

  /** What the formatter produces. */
  datatype Formatted =
    | Text(s: string)
    | Fixed1(value: real, suffix: string)  // `value.toFixed(1) + suffix`
    | NumberString(value: real)            // `value.toString()`
    | ThrowsSyntaxError                    // `BigInt(text)` rejected the text

  /** The power of a thousand that each suffix stands for. */
  function SuffixScale(suffix: string): real {
    if suffix == "B" then 1000000000.0 else if suffix == "M" then 1000000.0 else 1000.0
  }

  /**
    Abbreviates a number with the suffix of its tier: billions "B",
    millions "M", thousands "k". The number path keeps one decimal place;
    the BigInt path divides as BigInts do, dropping the remainder.
    On the number path the quotient times its suffix's scale is the number,
    and the quotient lies in [1, 1000) below billions, which fixes the tier.
   */
  function FormatLargeNumber(num: LargeNumber): (r: Formatted)
    ensures num.Number? ==> r.Fixed1? || r.NumberString?
    ensures num.Number? ==> (r.Fixed1? <==> num.x >= 1000.0)
    ensures r.Fixed1? ==> num.Number? && (r.suffix == "B" || r.suffix == "M" || r.suffix == "k")
    ensures r.Fixed1? ==> r.value * SuffixScale(r.suffix) == num.x
    ensures r.Fixed1? ==> 1.0 <= r.value && (r.suffix != "B" ==> r.value < 1000.0)
    ensures r.NumberString? ==> num == Number(r.value) && r.value < 1000.0
    ensures r.ThrowsSyntaxError? <==> num.BigIntBox? && num.text != "" && StringToBigInt(num.text).None?
    ensures num.OtherValue? || num == BigIntBox("") ==> r == Text("")
  {
    match num
    case Number(x) =>
      if x >= 1000000000.0 then Fixed1(x / 1000000000.0, "B")
      else if x >= 1000000.0 then Fixed1(x / 1000000.0, "M")
      else if x >= 1000.0 then Fixed1(x / 1000.0, "k")
      else NumberString(x)
    case BigIntBox(text) =>
      if text == "" then Text("")
      else (
        match StringToBigInt(text)
        case None => ThrowsSyntaxError
        case Some(v) =>
          if v >= 1000000000 then Text(IntToString(v / 1000000000) + "B")
          else if v >= 1000000 then Text(IntToString(v / 1000000) + "M")
          else if v >= 1000 then Text(IntToString(v / 1000) + "k")
          else Text(IntToString(v)))
    case OtherValue => Text("")
  }

  /**
    Any non-empty text that `BigInt` reads as v (surrounding whitespace, a
    sign, a `0x`/`0o`/`0b` prefix) is formatted by v's tier.
   */
  lemma FormatBigIntText(text: string, v: int)
    requires text != "" && StringToBigInt(text) == Some(v)
    ensures var r := FormatLargeNumber(BigIntBox(text));
            && (v >= 1000000000 ==> r == Text(IntToString(v / 1000000000) + "B"))
            && (1000000 <= v < 1000000000 ==> r == Text(IntToString(v / 1000000) + "M"))
            && (1000 <= v < 1000000 ==> r == Text(IntToString(v / 1000) + "k"))
            && (v < 1000 ==> r == Text(IntToString(v)))
  {
  }

  /** For every BigInt v written out by `toString()`, the formatter picks v's tier. */
  lemma FormatBigIntTiers(v: int)
    ensures var r := FormatLargeNumber(BigIntBox(IntToString(v)));
            && (v >= 1000000000 ==> r == Text(IntToString(v / 1000000000) + "B"))
            && (1000000 <= v < 1000000000 ==> r == Text(IntToString(v / 1000000) + "M"))
            && (1000 <= v < 1000000 ==> r == Text(IntToString(v / 1000) + "k"))
            && (v < 1000 ==> r == Text(IntToString(v)))
  {
    StringToBigIntRoundTrip(v);
    FormatBigIntText(IntToString(v), v);
  }

  /** Whitespace in front of a non-empty `$bigint` text does not change the output. */
  lemma FormatBigIntSkipsLeadingSpace(c: char, text: string)
    requires IsJsWhiteSpace(c) && text != ""
    ensures FormatLargeNumber(BigIntBox([c] + text)) == FormatLargeNumber(BigIntBox(text))
  {
    StringToBigIntSkipsLeadingSpace(c, text);
  }

  /** A `$bigint` text with a plus sign is formatted like the same digits without it. */
  lemma FormatBigIntPlusSign(n: nat)
    ensures FormatLargeNumber(BigIntBox("+" + NatToString(n))) == FormatLargeNumber(BigIntBox(NatToString(n)))
  {
    var d := NatToString(n);
    assert IntToString(n) == d;
    StringToBigIntRoundTrip(n);
    StringToBigIntPlusSign(n);
    FormatBigIntText("+" + d, n);
    FormatBigIntText(d, n);
  }

  /** Number syntax that BigInt does not take (a decimal point, an exponent) throws. */
  lemma FormatBigIntRejectsDecimal()
    ensures FormatLargeNumber(BigIntBox("1.5e3")) == ThrowsSyntaxError
  {
    assert !IsDigitOf("1.5e3"[1], 10);
    TrimUnchanged("1.5e3");
  }

  /**
    A whole number takes the same tier on the number path as on the BigInt
    path: both leave numbers under a thousand unabbreviated, and the text
    of the BigInt path ends with the suffix the number path chose.
   */
  lemma FormatTierAgrees(v: int)
    ensures var n := FormatLargeNumber(Number(v as real));
            var b := FormatLargeNumber(BigIntBox(IntToString(v)));
            && (n.NumberString? <==> v < 1000)
            && (v >= 1000 ==> n.Fixed1?)
            && (n.NumberString? ==> b == Text(IntToString(v)))
            && (n.Fixed1? ==> b.Text? && |b.s| >= 2 && b.s[|b.s| - 1..] == n.suffix)
  {
    FormatBigIntTiers(v);
    var b := FormatLargeNumber(BigIntBox(IntToString(v)));
    if v >= 1000000000 {
      assert b.s == IntToString(v / 1000000000) + "B";
    } else if v >= 1000000 {
      assert b.s == IntToString(v / 1000000) + "M";
    } else if v >= 1000 {
      assert b.s == IntToString(v / 1000) + "k";
    }
  }

  // =====================================================================
  // getRelativeTime: the unit ladder

  datatype TimeUnit = Second | Minute | Hour | Day | Month | Year

  /** The length of each unit in seconds: a month is 30 days, a year 365. */
  function UnitSeconds(u: TimeUnit): nat {
    match u
    case Second => 1
    case Minute => 60
    case Hour => 3600
    case Day => 86400
    case Month => 2592000
    case Year => 31536000
  }

  /** Position on the ladder, finest first. */
  function Rank(u: TimeUnit): nat {
    match u
    case Second => 0
    case Minute => 1
    case Hour => 2
    case Day => 3
    case Month => 4
    case Year => 5
  }

  /** The elapsed seconds below which a unit is still chosen; a year has no bound. */
  function Limit(u: TimeUnit): int
    requires u != Year
  {
    match u
    case Second => 60
    case Minute => 3600
    case Hour => 86400
    case Day => 2592000
    case Month => 31536000
  }

  /** The value and unit handed to the locale's relative-time formatter. */
  datatype RelativeTime = RelativeTime(value: int, unit: TimeUnit)

  /** `Math.floor((now - then) / 1000)` on millisecond timestamps. */
  function ElapsedSeconds(nowMs: int, thenMs: int): (d: int)
    ensures d * 1000 <= nowMs - thenMs < d * 1000 + 1000
  {
    (nowMs - thenMs) / 1000  // Dafny's division by a positive divisor rounds down
  }

  /**
    The coarsest unit that fits the elapsed seconds, with the whole number
    of such units, negated (a past time). Anything under a minute,
    including a time in the future, is given in seconds.
   */
  function RelativeTimeOf(diffInSeconds: int): (r: RelativeTime)
    ensures r.unit == Second <==> diffInSeconds < 60
    ensures r.unit == Second ==> r.value == -diffInSeconds
    ensures r.unit != Second ==> r.value < 0
    ensures r.unit != Second ==> -r.value * UnitSeconds(r.unit) <= diffInSeconds < (1 - r.value) * UnitSeconds(r.unit)
    ensures r.unit != Year ==> diffInSeconds < Limit(r.unit)
    ensures forall u :: u != Year && Rank(u) < Rank(r.unit) ==> diffInSeconds >= Limit(u)
  {
    if diffInSeconds < 60 then RelativeTime(-diffInSeconds, Second)
    else if diffInSeconds < 3600 then RelativeTime(-(diffInSeconds / 60), Minute)
    else if diffInSeconds < 86400 then RelativeTime(-(diffInSeconds / 3600), Hour)
    else if diffInSeconds < 2592000 then RelativeTime(-(diffInSeconds / 86400), Day)
    else if diffInSeconds < 31536000 then RelativeTime(-(diffInSeconds / 2592000), Month)
    else RelativeTime(-(diffInSeconds / 31536000), Year)
  }

  /**
    `getRelativeTime` up to the phrasing: the unit and value for the time
    between a date and now, both as millisecond timestamps. Under a minute,
    a future date included, the unit is seconds; otherwise it is the
    coarsest unit whose limit has not been reached, and the value counts
    the whole units that fit in the elapsed time.
   */
  function RelativeTimeBetween(nowMs: int, thenMs: int): (r: RelativeTime)
    ensures r.unit == Second <==> nowMs - thenMs < 60000
    ensures r.unit == Second ==> r.value * 1000 - 1000 < thenMs - nowMs <= r.value * 1000
    ensures r.unit != Second ==> r.value < 0
    ensures r.unit != Second ==>
              -r.value * UnitSeconds(r.unit) * 1000 <= nowMs - thenMs < (1 - r.value) * UnitSeconds(r.unit) * 1000
    ensures r.unit != Year ==> nowMs - thenMs < Limit(r.unit) * 1000
    ensures forall u :: u != Year && Rank(u) < Rank(r.unit) ==> nowMs - thenMs >= Limit(u) * 1000
  {
    RelativeTimeOf(ElapsedSeconds(nowMs, thenMs))
  }

  /** More elapsed time never picks a finer unit. */
  lemma RelativeTimeUnitMonotone(d1: int, d2: int)
    requires d1 <= d2
    ensures Rank(RelativeTimeOf(d1).unit) <= Rank(RelativeTimeOf(d2).unit)
  {
  }

  /** Since a year is 365 days and a month 30, the month unit reaches 12 before years take over. */
  lemma MonthsRunToTwelve(d: int)
    requires RelativeTimeOf(d).unit == Month
    ensures 1 <= -RelativeTimeOf(d).value <= 12
  {
  }

  // =====================================================================
  // calculateBadge

  datatype Badge = Gold | Silver | Bronze

  function BadgeRank(b: Badge): real {
    match b
    case Gold => 1.0
    case Silver => 2.0
    case Bronze => 3.0
  }

  /** Ranks 1, 2 and 3 earn gold, silver and bronze; every other rank none. */
  function CalculateBadge(rank: real): (r: Option<Badge>)
    ensures r.Some? <==> rank == 1.0 || rank == 2.0 || rank == 3.0
    ensures r.Some? ==> BadgeRank(r.value) == rank
  {
    if rank == 1.0 then Some(Gold)
    else if rank == 2.0 then Some(Silver)
    else if rank == 3.0 then Some(Bronze)
    else None
  }

  lemma BadgeOfItsRank(b: Badge)
    ensures CalculateBadge(BadgeRank(b)) == Some(b)
  {
  }

  // =====================================================================
  // languageIcons and getLanguageIcon

  const DefaultIcon: string := "\U{1F4C4}"

  const LanguageIcons: map<string, string> := map[
    "javascript" := "\U{1F7E8}",
    "typescript" := "\U{1F537}",
    "python" := "\U{1F40D}",
    "java" := "\U{2615}",
    "go" := "\U{1F439}",
    "rust" := "\U{1F980}",
    "c++" := "\U{1F527}",
    "c" := "\U{1F527}",
    "c#" := "\U{1F49C}",
    "php" := "\U{1F418}",
    "ruby" := "\U{1F48E}",
    "swift" := "\U{1F989}",
    "kotlin" := "\U{1F17A}",
    "dart" := "\U{1F3AF}",
    "html" := "\U{1F310}",
    "css" := "\U{1F3A8}",
    "scss" := "\U{1F3A8}",
    "less" := "\U{1F3A8}",
    "json" := "\U{1F4CB}",
    "xml" := "\U{1F4CB}",
    "yaml" := "\U{1F4CB}",
    "yml" := "\U{1F4CB}",
    "markdown" := "\U{1F4DD}",
    "md" := "\U{1F4DD}",
    "sql" := "\U{1F5C3}\U{FE0F}",
    "shell" := "\U{1F5A5}\U{FE0F}",
    "bash" := "\U{1F5A5}\U{FE0F}",
    "powershell" := "\U{1F5A5}\U{FE0F}",
    "dockerfile" := "\U{1F433}",
    "docker" := "\U{1F433}",
    "default" := DefaultIcon
  ]

  /**
    Looks the lower-cased name up in the table; a name that is missing (or
    whose entry were empty, which none is) gets the `default` entry.
   */
  function GetLanguageIcon(language: string): (icon: string)
    ensures icon in LanguageIcons.Values && icon != ""
    ensures ToLowerCase(language) in LanguageIcons ==> icon == LanguageIcons[ToLowerCase(language)]
    ensures ToLowerCase(language) !in LanguageIcons ==> icon == DefaultIcon
  {
    var normalized := ToLowerCase(language);
    if normalized in LanguageIcons && LanguageIcons[normalized] != "" then LanguageIcons[normalized]
    else LanguageIcons["default"]
  }

  /** The lookup ignores case: a name and its lower-cased form get the same icon. */
  lemma LanguageIconIgnoresCase(language: string)
    ensures GetLanguageIcon(language) == GetLanguageIcon(ToLowerCase(language))
  {
    ToLowerCaseIdempotent(language);
  }

  /** Two names that lower-case alike get the same icon. */
  lemma LanguageIconSameForSameLowerCase(a: string, b: string)
    requires ToLowerCase(a) == ToLowerCase(b)
    ensures GetLanguageIcon(a) == GetLanguageIcon(b)
  {
  }

  // =====================================================================
  // isValidApiToken: /^st_[a-zA-Z0-9]{20,}$/

  predicate IsAsciiAlphanumeric(c: char) {
    'a' <= c <= 'z' || 'A' <= c <= 'Z' || '0' <= c <= '9'
  }

  /** How many characters `[a-zA-Z0-9]*` consumes from the front of `s`. */
  function AlphanumericRun(s: string): (n: nat)
    ensures n <= |s|
  {
    if s == [] || !IsAsciiAlphanumeric(s[0]) then 0 else 1 + AlphanumericRun(s[1..])
  }

  lemma {:induction false} AlphanumericRunCoversAll(s: string)
    ensures AlphanumericRun(s) == |s| <==> forall i :: 0 <= i < |s| ==> IsAsciiAlphanumeric(s[i])
  {
    if s != [] {
      AlphanumericRunCoversAll(s[1..]);
      assert forall i :: 1 <= i < |s| ==> s[i] == s[1..][i - 1];
    }
  }

  /**
    The anchored pattern: the literal `st_` at the start, then a run of at
    least twenty ASCII letters and digits that reaches the end.
   */
  function IsValidApiToken(token: string): (valid: bool)
    ensures valid <==> |token| >= 23 && token[..3] == "st_"
                       && forall i :: 3 <= i < |token| ==> IsAsciiAlphanumeric(token[i])
  {
    if |token| < 3 then false
    else
      AlphanumericRunCoversAll(token[3..]);
      && token[..3] == "st_"
      && AlphanumericRun(token[3..]) == |token| - 3
      && |token| - 3 >= 20
  }

  /** Every `st_` followed by twenty or more letters and digits is accepted, and only those. */
  lemma ValidApiTokenShape(rest: string)
    ensures IsValidApiToken("st_" + rest) <==>
              |rest| >= 20 && forall i :: 0 <= i < |rest| ==> IsAsciiAlphanumeric(rest[i])
  {
    var t := "st_" + rest;
    assert t[..3] == "st_";
    assert forall i :: 0 <= i < |rest| ==> rest[i] == t[i + 3];
  }

  // =====================================================================
  // getDisplayName

  datatype User = User(username: string, displayName: Option<string>)

  datatype NamePreference = PreferDisplayName | PreferUsername

  /** The preference a caller gets when it passes none. */
  const DefaultNamePreference: NamePreference := PreferDisplayName

  /** The display name when it is preferred, present and non-empty; the username otherwise. */
  function GetDisplayName(user: User, preference: NamePreference): (name: string)
    ensures preference == PreferDisplayName && user.displayName.Some? && user.displayName.value != ""
            ==> name == user.displayName.value
    ensures !(preference == PreferDisplayName && user.displayName.Some? && user.displayName.value != "")
            ==> name == user.username
  {
    if preference == PreferDisplayName && user.displayName.Some? && user.displayName.value != "" then
      user.displayName.value
    else
      user.username
  }

  /** The chosen name is empty only when the username is. */
  lemma DisplayNameNonEmpty(user: User, preference: NamePreference)
    requires user.username != ""
    ensures GetDisplayName(user, preference) != ""
  {
  }

  // =====================================================================
  // calculateStreakDays

  predicate Sorted(s: seq<int>) {
    forall i, j :: 0 <= i < j < |s| ==> s[i] <= s[j]
  }

  function Insert(x: int, s: seq<int>): (r: seq<int>)
    requires Sorted(s)
    ensures Sorted(r) && multiset(r) == multiset(s) + multiset{x}
    ensures r != [] && (r[0] == x || (s != [] && r[0] == s[0]))
  {
    if s == [] || x <= s[0] then [x] + s
    else
      var rest := Insert(x, s[1..]);
      assert s[0] <= rest[0];
      assert s == [s[0]] + s[1..];
      [s[0]] + rest
  }

  /** The ascending order of the day offsets: the dates, latest first. */
  function SortAscending(s: seq<int>): (r: seq<int>)
    ensures Sorted(r) && multiset(r) == multiset(s)
  {
    if s == [] then []
    else
      assert s == [s[0]] + s[1..];
      Insert(s[0], SortAscending(s[1..]))
  }

  lemma SortedHeadIsLeast(a: seq<int>, y: int)
    requires Sorted(a) && y in multiset(a)
    ensures a[0] <= y
  {
    assert y in a;
  }

  /** Only one sorted arrangement of a multiset exists. */
  lemma {:induction false} SortedUnique(a: seq<int>, b: seq<int>)
    requires Sorted(a) && Sorted(b) && multiset(a) == multiset(b)
    ensures a == b
  {
    assert |a| == |multiset(a)| == |multiset(b)| == |b|;
    if a != [] {
      assert b[0] in multiset(b) && a[0] in multiset(a);
      SortedHeadIsLeast(a, b[0]);
      SortedHeadIsLeast(b, a[0]);
      assert a[0] == b[0];
      assert a == [a[0]] + a[1..] && b == [b[0]] + b[1..];
      assert multiset(a) == multiset{a[0]} + multiset(a[1..]);
      assert multiset(b) == multiset{a[0]} + multiset(b[1..]);
      assert multiset(a[1..]) == multiset(a) - multiset{a[0]} == multiset(b) - multiset{a[0]} == multiset(b[1..]);
      SortedUnique(a[1..], b[1..]);
    }
  }

  /**
    The loop of `calculateStreakDays` from `streak` on: an offset equal to
    the streak, or one more, extends it; anything else stops the scan.
   */
  function StreakFrom(daysAgo: seq<int>, streak: nat): (r: nat)
  {
    if daysAgo == [] then streak
    else if daysAgo[0] == streak || daysAgo[0] == streak + 1 then StreakFrom(daysAgo[1..], streak + 1)
    else streak
  }

  /** The streak of a collection of records, each given as days before today. */
  function StreakDays(daysAgo: seq<int>): nat {
    StreakFrom(SortAscending(daysAgo), 0)
  }

  /**
    Sorts the records (latest first) and counts with the early exit of the
    source's loop.
   */
  method CalculateStreakDays(daysAgo: seq<int>) returns (streak: nat)
    ensures streak == StreakDays(daysAgo)
  {
    if |daysAgo| == 0 {
      return 0;
    }
    var sortedDates := SortAscending(daysAgo);
    streak := 0;
    var i := 0;
    while i < |sortedDates|
      invariant 0 <= i <= |sortedDates|
      invariant StreakFrom(sortedDates[i..], streak) == StreakFrom(sortedDates, 0)
    {
      var diffDays := sortedDates[i];
      if diffDays == streak {
        streak := streak + 1;
      } else if diffDays == streak + 1 {
        streak := streak + 1;
      } else {
        break;
      }
      i := i + 1;
    }
  }

  lemma {:induction false} StreakFromBounds(daysAgo: seq<int>, streak: nat)
    ensures streak <= StreakFrom(daysAgo, streak) <= streak + |daysAgo|
  {
    if daysAgo != [] {
      StreakFromBounds(daysAgo[1..], streak + 1);
    }
  }

  /** Each record adds at most one day, and an empty collection has no streak. */
  lemma StreakAtMostRecordCount(daysAgo: seq<int>)
    ensures StreakDays(daysAgo) <= |daysAgo|
    ensures daysAgo == [] ==> StreakDays(daysAgo) == 0
  {
    var sorted := SortAscending(daysAgo);
    assert |sorted| == |multiset(sorted)| == |multiset(daysAgo)| == |daysAgo|;
    StreakFromBounds(sorted, 0);
  }

  /** The streak depends on the records, not on the order they come in. */
  lemma StreakIgnoresOrder(a: seq<int>, b: seq<int>)
    requires multiset(a) == multiset(b)
    ensures StreakDays(a) == StreakDays(b)
  {
    SortedUnique(SortAscending(a), SortAscending(b));
  }

  /**
    A streak starts only when the most recent record is from today or
    yesterday: a single record dated in the future, or none from the last
    two days, leaves it at 0.
   */
  lemma StreakStarts(daysAgo: seq<int>)
    ensures StreakDays(daysAgo) > 0 <==>
              (exists i :: 0 <= i < |daysAgo| && (daysAgo[i] == 0 || daysAgo[i] == 1))
              && (forall i :: 0 <= i < |daysAgo| ==> daysAgo[i] >= 0)
  {
    var sorted := SortAscending(daysAgo);
    if sorted != [] {
      StreakFromBounds(sorted[1..], 1);
      assert StreakDays(daysAgo) > 0 <==> sorted[0] == 0 || sorted[0] == 1;
      assert sorted[0] in multiset(daysAgo);
      var m :| 0 <= m < |daysAgo| && daysAgo[m] == sorted[0];
      forall i | 0 <= i < |daysAgo|
        ensures sorted[0] <= daysAgo[i]
      {
        assert daysAgo[i] in multiset(sorted);
        SortedHeadIsLeast(sorted, daysAgo[i]);
      }
    } else {
      assert |daysAgo| == |multiset(daysAgo)| == 0;
    }
  }

  /** The run of offsets start, start + 1, ..., start + n - 1. */
  function Consecutive(start: int, n: nat): (r: seq<int>)
    ensures |r| == n && forall i :: 0 <= i < n ==> r[i] == start + i
  {
    seq(n, i => start + i)
  }

  lemma {:induction false} StreakFromConsecutive(start: nat, n: nat, streak: nat)
    requires start == streak || start == streak + 1
    ensures StreakFrom(Consecutive(start, n), streak) == streak + n
    decreases n
  {
    if n > 0 {
      assert Consecutive(start, n)[1..] == Consecutive(start + 1, n - 1);
      StreakFromConsecutive(start + 1, n - 1, streak + 1);
    }
  }

  /** One record for each of the last n days, ending today or yesterday, is a streak of n. */
  lemma StreakOfConsecutiveDays(start: nat, n: nat)
    requires start <= 1
    ensures StreakDays(Consecutive(start, n)) == n
  {
    var days := Consecutive(start, n);
    SortedUnique(SortAscending(days), days);
    StreakFromConsecutive(start, n, 0);
  }

  /**
    Two records from today followed by one from yesterday stop the scan at
    the second record: its offset 0 is neither the streak 1 nor 2.
   */
  lemma StreakRepeatedTodayStops()
    ensures StreakDays([0, 0, 1]) == 1
  {
    SortedUnique(SortAscending([0, 0, 1]), [0, 0, 1]);
  }

  /** Two records from yesterday count as two days. */
  lemma StreakRepeatedYesterdayCountsTwice()
    ensures StreakDays([1, 1]) == 2
  {
    SortedUnique(SortAscending([1, 1]), [1, 1]);
  }

  // =====================================================================
  // truncate

  function Max(a: int, b: int): int {
    if a >= b then a else b
  }

  /**
    Text longer than `maxLength` keeps its first `maxLength - 3` characters
    (none when that is negative, as `substring` clamps) and gets "...".
   */
  function Truncate(text: string, maxLength: int): (r: string)
    ensures |text| <= maxLength ==> r == text
    ensures |text| > maxLength ==> r == text[..Max(maxLength - 3, 0)] + "..."
    ensures |text| > maxLength ==> |r| == Max(maxLength, 3)
  {
    if |text| <= maxLength then text else Substring(text, 0, maxLength - 3) + "..."
  }

  /** Truncating again changes nothing. */
  lemma TruncateIdempotent(text: string, maxLength: int)
    ensures Truncate(Truncate(text, maxLength), maxLength) == Truncate(text, maxLength)
  {
  }

  lemma TruncateExample()
    ensures Truncate("hello world", 8) == "hello..."
  {
  }
}
