/**
 * Case numbers of the MDT bot: `AL-` or `IR-`, the date with its slashes
 * removed, `-`, and the decimal rendering of the in-memory counter
 * (bot.js:103-104). The parser below is the inverse used to state that a
 * case number determines the counter value it was built from.
 */
module CaseNumbers {
  import opened Wrappers

  /** The only report type that gets the arrest prefix; every other type string is an incident. */
  const ArrestLogType: string := "Arrest Log"
  const ArrestPrefix: string := "AL-"
  const IncidentPrefix: string := "IR-"

  /** The prefix chosen by the exact comparison `type === 'Arrest Log'`. */
  function Prefix(reportType: string): (p: string)
    ensures |p| == 3 && p[2] == '-'
    ensures p == ArrestPrefix <==> reportType == ArrestLogType
    ensures p == IncidentPrefix <==> reportType != ArrestLogType
  {
    if reportType == ArrestLogType then ArrestPrefix else IncidentPrefix
  }

  // ---------------------------------------------------------------- slashes

  predicate NoSlash(s: string) {
    forall i :: 0 <= i < |s| ==> s[i] != '/'
  }

  /** `date.replace(/\//g, '')`: every `/` removed, the other characters kept in order. */
  function StripSlashes(s: string): (r: string)
    ensures NoSlash(r)
    ensures |r| <= |s|
  {
    if s == [] then [] else (if s[0] == '/' then [] else [s[0]]) + StripSlashes(s[1..])
  }

  /** Exactly the slashes go: every other character keeps its number of occurrences. */
  lemma {:induction false} StripSlashesKeepsOtherChars(s: string)
    ensures multiset(StripSlashes(s)) == multiset(s)['/' := 0]
  {
    if s != [] {
      assert s == [s[0]] + s[1..];
      StripSlashesKeepsOtherChars(s[1..]);
    }
  }

  /** Stripping distributes over concatenation, so the kept characters stay in their original order. */
  lemma {:induction false} StripSlashesAppend(a: string, b: string)
    ensures StripSlashes(a + b) == StripSlashes(a) + StripSlashes(b)
  {
    if a == [] {
      assert a + b == b;
    } else {
      assert (a + b)[0] == a[0];
      assert (a + b)[1..] == a[1..] + b;
      StripSlashesAppend(a[1..], b);
    }
  }

  /** A string without slashes is left as it is. */
  lemma {:induction false} StripSlashesKeepsSlashFree(s: string)
    requires NoSlash(s)
    ensures StripSlashes(s) == s
  {
    if s != [] {
      StripSlashesKeepsSlashFree(s[1..]);
    }
  }

  /** Stripping twice is stripping once. */
  lemma StripSlashesIdempotent(s: string)
    ensures StripSlashes(StripSlashes(s)) == StripSlashes(s)
  {
    StripSlashesKeepsSlashFree(StripSlashes(s));
  }

  // ---------------------------------------------------------------- decimal numbers

  predicate IsDigit(c: char) {
    '0' <= c <= '9'
  }

  predicate AllDigits(s: string) {
    forall i :: 0 <= i < |s| ==> IsDigit(s[i])
  }

  function DigitChar(d: nat): (c: char)
    requires d < 10
    ensures IsDigit(c) && c as int - '0' as int == d
  {
    ('0' as int + d) as char
  }

  /** The decimal text of a non-negative counter, as a template literal renders it: no sign, no leading zero. */
  function Decimal(n: nat): (r: string)
    ensures |r| >= 1 && AllDigits(r)
    ensures r[0] == '0' <==> n == 0
    decreases n
  {
    if n < 10 then [DigitChar(n)] else Decimal(n / 10) + [DigitChar(n % 10)]
  }

  /** The value of a string of decimal digits. */
  function DigitsValue(s: string): nat
    requires AllDigits(s)
  {
    if s == [] then 0 else DigitsValue(s[..|s| - 1]) * 10 + (s[|s| - 1] as int - '0' as int)
  }

  /** Reading back the decimal text gives the number. */
  lemma {:induction false} DecimalRoundTrip(n: nat)
    ensures DigitsValue(Decimal(n)) == n
    decreases n
  {
    if n >= 10 {
      DecimalRoundTrip(n / 10);
      var r := Decimal(n);
      assert r[..|r| - 1] == Decimal(n / 10);
    }
  }

  // ---------------------------------------------------------------- case numbers

  /** The case number of bot.js:104 for the counter value `sequence` (the value before the post-increment). */
  function CaseNumber(reportType: string, date: string, sequence: nat): (caseNum: string)
    ensures |caseNum| > 4
    ensures caseNum[..3] == Prefix(reportType)
  {
    Prefix(reportType) + StripSlashes(date) + "-" + Decimal(sequence)
  }

  /** What a case number says: the kind of report, the date part and the counter value. */
  datatype CaseNumberParts = CaseNumberParts(arrest: bool, datePart: string, sequence: nat)

  /** The position of the last occurrence of `c` in `s`, if any. */
  function LastIndexOf(s: string, c: char): (r: Option<nat>)
    ensures r.Some? ==> r.value < |s| && s[r.value] == c
    ensures r.Some? ==> forall j :: r.value < j < |s| ==> s[j] != c
    ensures r.None? ==> forall j :: 0 <= j < |s| ==> s[j] != c
  {
    if s == [] then None
    else if s[|s| - 1] == c then Some(|s| - 1)
    else LastIndexOf(s[..|s| - 1], c)
  }

  /**
   * Splits a case number into its parts: a three-character prefix, the date
   * part up to the last `-`, and the digits after it. The date part may itself
   * contain `-` (some locales write dates that way), which is why the split is
   * at the last dash.
   */
  function ParseCaseNumber(s: string): (r: Option<CaseNumberParts>)
    ensures r.Some? ==> |s| > 4 && s[..3] == (if r.value.arrest then ArrestPrefix else IncidentPrefix)
  {
    if |s| < 3 || (s[..3] != ArrestPrefix && s[..3] != IncidentPrefix) then None
    else
      var rest := s[3..];
      match LastIndexOf(rest, '-')
      case None => None
      case Some(k) =>
        var digits := rest[k + 1..];
        if digits == [] || !AllDigits(digits) then None
        else Some(CaseNumberParts(s[..3] == ArrestPrefix, rest[..k], DigitsValue(digits)))
  }

  /** In `x + "-" + y` with no dash in `y`, the last dash is the one between them. */
  lemma {:induction false} LastDashSplits(x: string, y: string)
    requires forall j :: 0 <= j < |y| ==> y[j] != '-'
    ensures LastIndexOf(x + "-" + y, '-') == Some(|x|)
    decreases |y|
  {
    var s := x + "-" + y;
    if y == [] {
      assert s[|s| - 1] == '-';
    } else {
      var init := y[..|y| - 1];
      assert s[|s| - 1] == y[|y| - 1];
      assert s[..|s| - 1] == x + "-" + init;
      LastDashSplits(x, init);
    }
  }

  /** Parsing a case number recovers the report kind, the stripped date and the counter value. */
  lemma CaseNumberRoundTrip(reportType: string, date: string, sequence: nat)
    ensures ParseCaseNumber(CaseNumber(reportType, date, sequence))
         == Some(CaseNumberParts(reportType == ArrestLogType, StripSlashes(date), sequence))
  {
    var p, d, digits := Prefix(reportType), StripSlashes(date), Decimal(sequence);
    var s := CaseNumber(reportType, date, sequence);
    var rest := d + "-" + digits;
    assert s == p + rest;
    assert s[..3] == p && s[3..] == rest;
    LastDashSplits(d, digits);
    assert rest[..|d|] == d;
    assert rest[|d| + 1..] == digits;
    DecimalRoundTrip(sequence);
  }

  /**
   * A case number determines the counter value it was made from, whatever the
   * type and date: two case numbers built from different counter values differ.
   */
  lemma CaseNumberDeterminesParts(t1: string, d1: string, n1: nat, t2: string, d2: string, n2: nat)
    requires CaseNumber(t1, d1, n1) == CaseNumber(t2, d2, n2)
    ensures n1 == n2
    ensures t1 == ArrestLogType <==> t2 == ArrestLogType
    ensures StripSlashes(d1) == StripSlashes(d2)
  {
    CaseNumberRoundTrip(t1, d1, n1);
    CaseNumberRoundTrip(t2, d2, n2);
  }
}
