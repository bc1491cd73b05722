/** Display rules of the leaderboard page (frontend/src/pages/Leaderboard.jsx):
    the time column, the rank badge, the top-three marking and the attempt
    count. */
module LeaderboardPage {
  import opened Common
  import opened Scoring

  /** `${i}` for an integer. */
  function IntString(i: int): (s: string)
    ensures |s| >= 1
    ensures i >= 0 ==> s == DecimalString(i)
  {
    if i < 0 then "-" + DecimalString(-i) else DecimalString(i)
  }

  /** JavaScript's `%` with a positive divisor: the remainder takes the sign of
      the dividend. */
  function JsRem(a: int, b: int): (r: int)
    requires b > 0
    ensures a >= 0 ==> 0 <= r < b && a == (a / b) * b + r
    ensures a < 0 ==> -b < r <= 0
  {
    if a >= 0 then a % b else -((-a) % b)
  }

  /** `formatTime`: `${Math.floor(s / 60)}m ${s % 60}s`. Dafny's `/` by a
      positive divisor rounds down, as `Math.floor` does. */
  function FormatDuration(seconds: int): string {
    IntString(seconds / 60) + "m " + IntString(JsRem(seconds, 60)) + "s"
  }

  /** Two numerals around the fixed separators can be split back apart. */
  lemma SplitFields(a1: string, b1: string, a2: string, b2: string)
    requires AllDigits(a1) && AllDigits(b1) && AllDigits(a2) && AllDigits(b2)
    requires a1 + "m " + b1 + "s" == a2 + "m " + b2 + "s"
    ensures a1 == a2 && b1 == b2
  {
    var s1, s2 := a1 + "m " + b1 + "s", a2 + "m " + b2 + "s";
    SeparatorAt(a1, b1);
    SeparatorAt(a2, b2);
    assert |a1| == |a2|;
    assert a1 == s1[..|a1|] && a2 == s2[..|a2|];
    assert b1 == s1[|a1| + 2..|s1| - 1] && b2 == s2[|a2| + 2..|s2| - 1];
  }

  /** In a numeral followed by "m ", the first 'm' is the one right after the
      numeral. */
  lemma SeparatorAt(digits: string, rest: string)
    requires AllDigits(digits)
    ensures |digits + "m " + rest + "s"| > |digits| && (digits + "m " + rest + "s")[|digits|] == 'm'
    ensures forall i :: 0 <= i < |digits| ==> (digits + "m " + rest + "s")[i] != 'm'
  {
    var s := digits + "m " + rest + "s";
    forall i | 0 <= i < |digits| ensures s[i] != 'm' {
      assert s[i] == digits[i] && IsDigit(digits[i]);
    }
  }

  /** Different non-negative times are displayed differently. */
  lemma FormatDurationInjective(s1: nat, s2: nat)
    requires FormatDuration(s1) == FormatDuration(s2)
    ensures s1 == s2
  {
    SplitFields(DecimalString(s1 / 60), DecimalString(s1 % 60), DecimalString(s2 / 60), DecimalString(s2 % 60));
    DecimalStringInjective(s1 / 60, s2 / 60);
    DecimalStringInjective(s1 % 60, s2 % 60);
  }

  /** For a non-negative time the display reads back: the minutes precede
      "m ", the seconds lie between it and the final "s", are below 60, and
      minutes * 60 + seconds is the time. */
  lemma FormatDurationReadsBack(seconds: nat)
    ensures var r := FormatDuration(seconds);
            exists k :: 1 <= k && k + 3 <= |r| && r[k..k + 2] == "m " && r[|r| - 1] == 's' &&
              AllDigits(r[..k]) && AllDigits(r[k + 2..|r| - 1]) &&
              ParseDecimal(r[k + 2..|r| - 1]) < 60 &&
              ParseDecimal(r[..k]) * 60 + ParseDecimal(r[k + 2..|r| - 1]) == seconds
  {
    var mins, secs := DecimalString(seconds / 60), DecimalString(seconds % 60);
    ParseDecimalString(seconds / 60);
    ParseDecimalString(seconds % 60);
    var r := mins + "m " + secs + "s";
    assert r == FormatDuration(seconds);
    var k := |mins|;
    assert r[..k] == mins && r[k..k + 2] == "m " && r[k + 2..|r| - 1] == secs;
    assert r[|r| - 1] == 's';
  }

  /** For a negative time the fields do not add up: -5 seconds shows as one
      negative minute and -5 seconds. */
  lemma NegativeDurationShown()
    ensures FormatDuration(-5) == "-1m -5s"
  {
    assert -5 / 60 == -1;
    assert JsRem(-5, 60) == -5;
  }

  const Gold := "\U{1F947}"
  const Silver := "\U{1F948}"
  const Bronze := "\U{1F949}"

  predicate IsMedal(s: string) {
    s == Gold || s == Silver || s == Bronze
  }

  /** `getMedalEmoji`: a medal for ranks 1 to 3, the rank's numeral otherwise. */
  function MedalLabel(rank: int): string {
    if rank == 1 then Gold
    else if rank == 2 then Silver
    else if rank == 3 then Bronze
    else IntString(rank)
  }

  /** Different ranks get different badges, and exactly ranks 1 to 3 get a
      medal. */
  lemma MedalLabelInjective(r1: int, r2: int)
    requires MedalLabel(r1) == MedalLabel(r2)
    ensures r1 == r2
    ensures IsMedal(MedalLabel(r1)) <==> 1 <= r1 <= 3
  {
    NumeralNotMedal(r1);
    NumeralNotMedal(r2);
    if !(1 <= r1 <= 3) && !(1 <= r2 <= 3) {
      var s1, s2 := IntString(r1), IntString(r2);
      if r1 >= 0 && r2 >= 0 {
        DecimalStringInjective(r1, r2);
      } else if r1 < 0 && r2 < 0 {
        assert s1[1..] == DecimalString(-r1) && s2[1..] == DecimalString(-r2);
        DecimalStringInjective(-r1, -r2);
      } else if r1 < 0 {
        assert false;
      } else {
        assert false;
      }
    }
  }

  lemma NumeralNotMedal(rank: int)
    ensures !IsMedal(IntString(rank))
  {
    var s := IntString(rank);
    if |s| == 1 {
      assert IsDigit(s[0]);
      assert Gold[0] == '\U{1F947}' && Silver[0] == '\U{1F948}' && Bronze[0] == '\U{1F949}';
    }
  }

  /** One row of the table for the entry at `index`. */
  datatype Row = Row(badge: string, topThree: bool, name: string, score: int, time: string)

  function RowOf(index: nat, entry: Attempt): Row {
    Row(MedalLabel(index + 1), index < 3, entry.userName, entry.score, FormatDuration(entry.timeTaken))
  }

  /** The rows carry distinct badges, and a row is marked top-three exactly
      when its badge is a medal. */
  lemma RowsWellRanked(i: nat, j: nat, a: Attempt, b: Attempt)
    ensures RowOf(i, a).topThree <==> IsMedal(RowOf(i, a).badge)
    ensures i != j ==> RowOf(i, a).badge != RowOf(j, b).badge
  {
    NumeralNotMedal(i + 1);
    if RowOf(i, a).badge == RowOf(j, b).badge {
      MedalLabelInjective(i + 1, j + 1);
    }
  }

  /** "N attempt" or "N attempts". */
  function AttemptCountLabel(count: nat): (text: string)
    ensures |text| > |DecimalString(count)|
    ensures text[..|DecimalString(count)|] == DecimalString(count)
    ensures text[|text| - 1] == 's' <==> count != 1
  {
    DecimalString(count) + " attempt" + (if count != 1 then "s" else "")
  }
}
