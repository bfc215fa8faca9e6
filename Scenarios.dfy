/** Concrete behaviour of the scanner and the duration value on the inputs
    the library's tests and examples use. Where a test expects something
    else, the lemma states what the code does.

    Each token of a source is read off by its own lemma, stated for any
    text that follows it; a scenario then joins the pieces. */
module Scenarios {
  import opened Decimal
  import opened Scanning
  import opened TimeDuration

  // ---------------------------------------------------------------------
  // Tokens
  // ---------------------------------------------------------------------

  lemma JoinTenMinutes()
    ensures "10" + "m" + [] == "10m"
  {
  }

  lemma JoinThirtySeconds()
    ensures "30" + "s" + [] == "30s"
  {
  }

  lemma JoinFifteenSeconds()
    ensures "15" + "s" + [] == "15s"
  {
  }

  lemma JoinNinety(rest: string)
    ensures "90" + [] + ([' '] + rest) == "90 " + rest
  {
    assert "90" + [] + [' '] == "90 ";
  }

  lemma JoinThirtyMinutes(rest: string)
    ensures "30" + "m" + " " + rest == "30m " + rest
  {
    assert "30" + "m" + " " == "30m ";
  }

  lemma LexFiveMinutes(rest: string)
    ensures Lex("5m " + rest) == [Item(5, "m")] + Lex(rest)
  {
    JoinFiveMinutes(rest);
    ParseOneDigit("5");
    LexUnitThenSpace("5m " + rest, "5", "m", rest);
  }

  lemma JoinFiveMinutes(rest: string)
    ensures "5" + "m" + " " + rest == "5m " + rest
  {
    assert "5" + "m" + " " == "5m ";
  }

  lemma LexTenMinutes()
    ensures Lex("10m") == [Item(10, "m")]
  {
    JoinTenMinutes();
    ParseTwoDigits("10");
    LexNumber("10m", "10", "m", []);
  }

  lemma LexOneHour(rest: string)
    ensures Lex("1h " + rest) == [Item(1, "h")] + Lex(rest)
  {
    JoinOneHour(rest);
    ParseOneDigit("1");
    LexUnitThenSpace("1h " + rest, "1", "h", rest);
  }

  lemma JoinOneHour(rest: string)
    ensures "1" + "h" + " " + rest == "1h " + rest
  {
    assert "1" + "h" + " " == "1h ";
  }

  lemma LexBareNinety(rest: string)
    ensures Lex("90 " + rest) == [Item(90, [])] + Lex(rest)
  {
    JoinNinety(rest);
    ParseTwoDigits("90");
    LexNumber("90 " + rest, "90", [], [' '] + rest);
    LexSkip(' ', rest);
  }

  lemma LexThirtySeconds()
    ensures Lex("30s") == [Item(30, "s")]
  {
    JoinThirtySeconds();
    ParseTwoDigits("30");
    LexNumber("30s", "30", "s", []);
  }

  lemma LexTwoHours(rest: string)
    ensures Lex("2h " + rest) == [Item(2, "h")] + Lex(rest)
  {
    JoinTwoHours(rest);
    ParseOneDigit("2");
    LexUnitThenSpace("2h " + rest, "2", "h", rest);
  }

  lemma JoinTwoHours(rest: string)
    ensures "2" + "h" + " " + rest == "2h " + rest
  {
    assert "2" + "h" + " " == "2h ";
  }

  lemma LexThirtyMinutes(rest: string)
    ensures Lex("30m " + rest) == [Item(30, "m")] + Lex(rest)
  {
    JoinThirtyMinutes(rest);
    ParseTwoDigits("30");
    LexUnitThenSpace("30m " + rest, "30", "m", rest);
  }

  lemma LexFifteenSeconds()
    ensures Lex("15s") == [Item(15, "s")]
  {
    JoinFifteenSeconds();
    ParseTwoDigits("15");
    LexNumber("15s", "15", "s", []);
  }

  // ---------------------------------------------------------------------
  // Sources joined from their tokens
  // ---------------------------------------------------------------------

  lemma JoinRepeated()
    ensures "5m " + "10m" == "5m 10m"
  {
  }

  lemma JoinMixed()
    ensures "90 " + "30s" == "90 30s"
    ensures "1h " + "90 30s" == "1h 90 30s"
  {
  }

  lemma JoinComplex()
    ensures "30m " + "15s" == "30m 15s"
    ensures "2h " + "30m 15s" == "2h 30m 15s"
  {
  }

  lemma JoinItems(a: Item, b: Item, c: Item)
    ensures [a] + ([b] + [c]) == [a, b, c]
  {
  }

  lemma LexRepeatedUnit()
    ensures Lex("5m 10m") == [Item(5, "m"), Item(10, "m")]
  {
    JoinRepeated();
    LexFiveMinutes("10m");
    LexTenMinutes();
  }

  lemma LexMixed()
    ensures Lex("1h 90 30s") == [Item(1, "h"), Item(90, []), Item(30, "s")]
  {
    JoinMixed();
    LexOneHour("90 30s");
    LexBareNinety("30s");
    LexThirtySeconds();
    JoinItems(Item(1, "h"), Item(90, []), Item(30, "s"));
  }

  lemma LexComplex()
    ensures Lex("2h 30m 15s") == [Item(2, "h"), Item(30, "m"), Item(15, "s")]
  {
    JoinComplex();
    LexTwoHours("30m 15s");
    LexThirtyMinutes("15s");
    LexFifteenSeconds();
    JoinItems(Item(2, "h"), Item(30, "m"), Item(15, "s"));
  }

  // ---------------------------------------------------------------------
  // Buckets
  // ---------------------------------------------------------------------

  lemma AccumulateRepeated()
    ensures Accumulate(DefaultTable(), [Item(5, "m"), Item(10, "m")], map[]) == map[60 := 15]
  {
    ShortUnits();
    var empty: map<int, int> := map[];
    AccumulateCons(DefaultTable(), Item(5, "m"), [Item(10, "m")], empty);
    assert [Item(5, "m"), Item(10, "m")] == [Item(5, "m")] + [Item(10, "m")];
    assert Deliver(DefaultTable(), empty, Item(5, "m")) == map[60 := 5];
    AccumulateOne(DefaultTable(), Item(10, "m"), map[60 := 5]);
    assert map[60 := 5][60 := 5 + 10] == map[60 := 15];
  }

  /** `"5m 10m"`: the same unit twice adds into one bucket. */
  lemma ScanRepeatedUnit()
    ensures Scan(DefaultTable(), "5m 10m") == map[60 := 15]
  {
    LexRepeatedUnit();
    AccumulateRepeated();
  }

  lemma AccumulateMixed()
    ensures Accumulate(DefaultTable(), [Item(1, "h"), Item(90, []), Item(30, "s")], map[])
         == map[3600 := 1, 60 := 90, 1 := 30]
  {
    ShortUnits();
    var t := DefaultTable();
    var empty: map<int, int> := map[];
    assert [Item(1, "h"), Item(90, []), Item(30, "s")] == [Item(1, "h")] + ([Item(90, [])] + [Item(30, "s")]);
    AccumulateCons(t, Item(1, "h"), [Item(90, [])] + [Item(30, "s")], empty);
    assert Deliver(t, empty, Item(1, "h")) == map[3600 := 1];
    AccumulateCons(t, Item(90, []), [Item(30, "s")], map[3600 := 1]);
    assert Deliver(t, map[3600 := 1], Item(90, [])) == map[3600 := 1, 60 := 90];
    AccumulateOne(t, Item(30, "s"), map[3600 := 1, 60 := 90]);
    assert Deliver(t, map[3600 := 1, 60 := 90], Item(30, "s")) == map[3600 := 1, 60 := 90, 1 := 30];
  }

  /** `"1h 90 30s"`: the bare 90 goes to the minutes bucket. */
  lemma ScanMixed()
    ensures Scan(DefaultTable(), "1h 90 30s") == map[3600 := 1, 60 := 90, 1 := 30]
  {
    LexMixed();
    AccumulateMixed();
  }

  lemma AccumulateComplex()
    ensures Accumulate(DefaultTable(), [Item(2, "h"), Item(30, "m"), Item(15, "s")], map[])
         == map[3600 := 2, 60 := 30, 1 := 15]
  {
    ShortUnits();
    var t := DefaultTable();
    var empty: map<int, int> := map[];
    assert [Item(2, "h"), Item(30, "m"), Item(15, "s")] == [Item(2, "h")] + ([Item(30, "m")] + [Item(15, "s")]);
    AccumulateCons(t, Item(2, "h"), [Item(30, "m")] + [Item(15, "s")], empty);
    assert Deliver(t, empty, Item(2, "h")) == map[3600 := 2];
    AccumulateCons(t, Item(30, "m"), [Item(15, "s")], map[3600 := 2]);
    assert Deliver(t, map[3600 := 2], Item(30, "m")) == map[3600 := 2, 60 := 30];
    AccumulateOne(t, Item(15, "s"), map[3600 := 2, 60 := 30]);
    assert Deliver(t, map[3600 := 2, 60 := 30], Item(15, "s")) == map[3600 := 2, 60 := 30, 1 := 15];
  }

  /** `"2h 30m 15s"`: one bucket per unit. */
  lemma ScanComplex()
    ensures Scan(DefaultTable(), "2h 30m 15s") == map[3600 := 2, 60 := 30, 1 := 15]
  {
    LexComplex();
    AccumulateComplex();
  }

  lemma JoinDetached(rest: string)
    ensures "30" + " " + "minutes" == "30 minutes"
    ensures "30 minutes " + rest == "30 minutes" + [' '] + rest
  {
    assert "30 minutes" + [' '] == "30 minutes ";
  }

  lemma JoinDetachedHours(rest: string)
    ensures "1" + " " + "hours" == "1 hours"
    ensures "1 hours " + rest == "1 hours" + [' '] + rest
  {
    assert "1 hours" + [' '] == "1 hours ";
  }

  lemma JoinDetachedSeconds()
    ensures "45" + " " + "seconds" == "45 seconds"
  {
  }

  lemma ScanDetachedSeconds()
    ensures Scan(DefaultTable(), "45 seconds") == map[60 := 45]
  {
    JoinDetachedSeconds();
    ParseTwoDigits("45");
    ScanDetachedUnit(DefaultTable(), "45 seconds", "45", "seconds");
  }

  lemma ScanDetachedMinutes(rest: string, y: int)
    requires Scan(DefaultTable(), rest) == map[60 := y]
    ensures Scan(DefaultTable(), "30 minutes " + rest) == map[60 := 30 + y]
  {
    JoinDetached(rest);
    ParseTwoDigits("30");
    ScanDetachedUnit(DefaultTable(), "30 minutes", "30", "minutes");
    ScanMergeDefault(DefaultTable(), "30 minutes " + rest, "30 minutes", ' ', rest, 30, y);
  }

  lemma ScanDetachedHours(rest: string, y: int)
    requires Scan(DefaultTable(), rest) == map[60 := y]
    ensures Scan(DefaultTable(), "1 hours " + rest) == map[60 := 1 + y]
  {
    JoinDetachedHours(rest);
    ParseOneDigit("1");
    ScanDetachedUnit(DefaultTable(), "1 hours", "1", "hours");
    ScanMergeDefault(DefaultTable(), "1 hours " + rest, "1 hours", ' ', rest, 1, y);
  }

  /** `"1 hours 30 minutes 45 seconds"`: every unit is separated from its
      number by a space, so none is attached and all three numbers land in
      the minutes bucket (the library's tests expect three buckets). */
  lemma JoinLongUnits()
    ensures "30 minutes " + "45 seconds" == "30 minutes 45 seconds"
    ensures "1 hours " + "30 minutes 45 seconds" == "1 hours 30 minutes 45 seconds"
  {
  }

  lemma ScanDetachedLongUnits()
    ensures Scan(DefaultTable(), "1 hours 30 minutes 45 seconds") == map[60 := 76]
  {
    JoinLongUnits();
    ScanDetachedSeconds();
    ScanDetachedMinutes("45 seconds", 45);
    ScanDetachedHours("30 minutes 45 seconds", 75);
  }

  /** `Parse("1 hours 30 minutes 45 seconds")` is 76 minutes, 4560 seconds
      (the library's test expects 5445). */
  lemma ParseDetachedLongUnits()
    ensures WeightedSum(Scan(DefaultTable(), "1 hours 30 minutes 45 seconds")) == 4560
  {
    var buckets := map[60 := 76];
    ScanDetachedLongUnits();
    WeightedSumPick(buckets, 60);
    assert buckets - {60} == map[];
  }

  /** `"120"`: a bare number goes to the minutes bucket. */
  lemma ScanBare120()
    ensures Scan(DefaultTable(), "120") == map[60 := 120]
  {
    ParseThreeDigits("120");
    ScanBareNumber(DefaultTable(), "120");
  }

  /** `"500ms"`: a unit not in the table contributes nothing and is not an
      error. */
  lemma ScanMilliseconds()
    ensures Scan(DefaultTable(), "500ms") == map[]
  {
    assert "ms" !in DefaultTable();
    ScanUnknownUnit(DefaultTable(), "500ms", "500", "ms", []);
    ScanNoDigits(DefaultTable(), []);
  }

  /** `"5H"`: unit matching is case-sensitive, so an upper-case unit is
      unknown. */
  lemma ScanUpperCaseUnit()
    ensures Scan(DefaultTable(), "5H") == map[]
  {
    assert "H" !in DefaultTable();
    ScanUnknownUnit(DefaultTable(), "5H", "5", "H", []);
    ScanNoDigits(DefaultTable(), []);
  }

  // ---------------------------------------------------------------------
  // Parsing to seconds
  // ---------------------------------------------------------------------

  lemma ContributionComplex()
    ensures Contribution(DefaultTable(), [Item(2, "h"), Item(30, "m"), Item(15, "s")]) == 9015
  {
    ShortUnits();
    var items := [Item(2, "h"), Item(30, "m"), Item(15, "s")];
    assert items[1..] == [Item(30, "m"), Item(15, "s")];
    assert items[1..][1..] == [Item(15, "s")] && items[1..][1..][1..] == [];
  }

  /** `Parse("2h 30m 15s")` is 9015 seconds. */
  lemma ParseComplex()
    ensures WeightedSum(Scan(DefaultTable(), "2h 30m 15s")) == 9015
  {
    LexComplex();
    ContributionComplex();
    ScanWeightedSum(DefaultTable(), "2h 30m 15s");
  }

  /** Months and years in the unit table. */
  lemma LongUnits()
    ensures "mo" in DefaultTable() && DefaultTable()["mo"] == 2419200
    ensures "y" in DefaultTable() && DefaultTable()["y"] == 31536000
    ensures "1" + "mo" == "1mo" && "1" + "y" == "1y"
  {
  }

  lemma JoinUnits()
    ensures "999" + "h" == "999h" && "0" + "s" == "0s"
  {
  }

  /** A single number with a unit parses to the number times the unit. */
  lemma ParseOneUnit(tokens: map<string, int>, s: string, digits: string, unit: string)
    requires s == digits + unit
    requires digits != [] && AllDigits(digits)
    requires unit != [] && forall i :: 0 <= i < |unit| ==> IsAlpha(unit[i])
    requires unit in tokens
    ensures WeightedSum(Scan(tokens, s)) == tokens[unit] * ParseDecimal(digits)
  {
    var items := [Item(ParseDecimal(digits), unit)];
    assert s == digits + unit + [];
    LexNumber(s, digits, unit, []);
    assert Lex(s) == items + [];
    assert items + [] == items && items[1..] == [];
    ScanWeightedSum(tokens, s);
  }

  /** Months are 28 days. */
  lemma ParseMonth()
    ensures WeightedSum(Scan(DefaultTable(), "1mo")) == 2419200
  {
    LongUnits();
    ParseOneUnit(DefaultTable(), "1mo", "1", "mo");
  }

  /** Years are 365 days. */
  lemma ParseYear()
    ensures WeightedSum(Scan(DefaultTable(), "1y")) == 31536000
  {
    LongUnits();
    ParseOneUnit(DefaultTable(), "1y", "1", "y");
  }

  /** `Parse("999h")` is 3596400 seconds. */
  lemma ParseLargeNumber()
    ensures WeightedSum(Scan(DefaultTable(), "999h")) == 3596400
  {
    ShortUnits();
    JoinUnits();
    ParseThreeDigits("999");
    ParseOneUnit(DefaultTable(), "999h", "999", "h");
  }

  /** Zero seconds parse to zero. */
  lemma ParseZeroSeconds()
    ensures WeightedSum(Scan(DefaultTable(), "0s")) == 0
  {
    ShortUnits();
    JoinUnits();
    ParseOneUnit(DefaultTable(), "0s", "0", "s");
  }

  /** Empty text parses to zero. */
  lemma ParseEmpty()
    ensures WeightedSum(Scan(DefaultTable(), "")) == 0
  {
    ScanWeightedSum(DefaultTable(), "");
  }

  // ---------------------------------------------------------------------
  // Normalisation and text
  // ---------------------------------------------------------------------

  /** The component constructor's total for (3725, 90, 25, 0) normalises to
      1 day, 3 hours, 32 minutes and 5 seconds. */
  lemma NormalizeComponents()
    ensures Normalize(3725 + 60 * 90 + 3600 * 25 + 86400 * 0) == Breakdown(1, 3, 32, 5)
  {
  }

  /** 999 days, 23 hours, 59 minutes and 59 seconds keep their components. */
  lemma NormalizeLargeComponents()
    ensures Normalize(999 * 86400 + 23 * 3600 + 59 * 60 + 59) == Breakdown(999, 23, 59, 59)
  {
  }

  /** The components (59, 59, 23, 365) are already in clock range, so the
      days stay at exactly 365 (the library's test expects more than 365). */
  lemma NormalizeAlmostYear()
    ensures Normalize(59 + 60 * 59 + 3600 * 23 + 86400 * 365) == Breakdown(365, 23, 59, 59)
  {
  }

  /** Zero is written `"0s"`. */
  lemma RenderZero()
    ensures Render(Normalize(0)) == "0s"
  {
  }

  /** `"2h 30m 15s"` is written back as itself. */
  lemma RenderComplex()
    ensures Render(Normalize(9015)) == "2h 30m 15s"
  {
    assert Normalize(9015) == Breakdown(0, 2, 30, 15);
    assert FormatNat(30) == "30";
    assert FormatNat(15) == "15";
  }

  /** A duration whose seconds are zero ends with a space: one day and five
      hours is `"1d 5h "` (the library's tests expect `"1d 5h 0s"`). */
  lemma RenderDaysHours()
    ensures Render(Normalize(86400 + 5 * 3600)) == "1d 5h "
  {
    assert Normalize(86400 + 5 * 3600) == Breakdown(1, 5, 0, 0);
    assert Segment(1, 'd') == "1d ";
    assert Segment(5, 'h') == "5h ";
  }

  /** Thirty minutes is `"30m "` (the library's tests expect `"30m 0s"`). */
  lemma RenderMinutes()
    ensures Render(Normalize(30 * 60)) == "30m "
  {
    assert Normalize(30 * 60) == Breakdown(0, 0, 30, 0);
    assert FormatNat(30) == "30";
    assert Segment(30, 'm') == "30m ";
  }

  lemma FormatThirtySix()
    ensures FormatNat(36) == "36"
  {
  }

  lemma FormatThirtySixHundred()
    ensures FormatNat(3600) == "3600"
  {
    FormatThirtySix();
    assert FormatNat(360) == "36" + ['0'];
    assert FormatNat(3600) == "36" + ['0'] + ['0'];
  }

  lemma JoinSqlInterval()
    ensures "interval " + "3600" + " second" == "interval 3600 second"
  {
  }

  /** `asSqlInterval` of one hour. */
  lemma SqlIntervalExample()
    ensures SqlInterval(3600) == "interval 3600 second"
  {
    FormatThirtySixHundred();
    JoinSqlInterval();
  }
}
