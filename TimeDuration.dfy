/** The duration value `CTimePeriod`: a count of seconds with its
    days/hours/minutes/seconds breakdown, built from components, from text
    or from raw seconds, and rendered as text or as an SQL interval. */
module TimeDuration {
  import opened Decimal
  import Truncated
  import opened Scanning

  /** The unit table `Parse` hands to the scanner: short and long spelling
      of seconds, minutes, hours, days, 28-day months and 365-day years. */
  function DefaultTable(): map<string, int>
  {
    map["s" := 1, "seconds" := 1,
        "m" := 60, "minutes" := 60,
        "h" := 3600, "hours" := 3600,
        "d" := 86400, "days" := 86400,
        "mo" := 2419200, "months" := 2419200,
        "y" := 31536000, "years" := 31536000]
  }

  // ---------------------------------------------------------------------
  // Weighting the scanner's buckets
  // ---------------------------------------------------------------------

  /** A non-empty set has an element. */
  lemma NonEmpty(s: set<int>)
    requires s != {}
    ensures exists x :: x in s
  {
    assert (forall x :: x !in s) ==> s == {};
  }

  ghost function Pick(m: map<int, int>): (k: int)
    requires m.Keys != {}
    ensures k in m
  {
    NonEmpty(m.Keys);
    var k :| k in m.Keys; k
  }

  /** The sum of multiplier times count over all buckets, in no particular
      order. */
  ghost function WeightedSum(m: map<int, int>): int
    decreases |m|
  {
    if m.Keys == {} then 0
    else
      var k := Pick(m);
      assert |m - {k}| < |m| by {
        assert (m - {k}).Keys == m.Keys - {k};
      }
      k * m[k] + WeightedSum(m - {k})
  }

  /** The weighted sum may start from any bucket. */
  lemma {:induction false} WeightedSumPick(m: map<int, int>, k: int)
    requires k in m
    ensures WeightedSum(m) == k * m[k] + WeightedSum(m - {k})
    decreases |m|
  {
    var j := Pick(m);
    if j != k {
      var withoutJ, withoutK := m - {j}, m - {k};
      assert withoutJ.Keys == m.Keys - {j} && withoutJ[k] == m[k];
      assert withoutK.Keys == m.Keys - {k} && withoutK[j] == m[j];
      WeightedSumPick(withoutJ, k);
      WeightedSumPick(withoutK, j);
      assert withoutJ - {k} == withoutK - {j};
    }
  }

  /** Adding `value` to a bucket adds `multiplier * value` to the total. */
  lemma WeightedSumAdded(m: map<int, int>, multiplier: int, value: int)
    ensures WeightedSum(Added(m, multiplier, value)) == WeightedSum(m) + multiplier * value
  {
    var a := Added(m, multiplier, value);
    WeightedSumPick(a, multiplier);
    assert a - {multiplier} == m - {multiplier};
    var before := Get(m, multiplier);
    assert WeightedSum(m) == multiplier * before + WeightedSum(m - {multiplier}) by {
      if multiplier in m {
        WeightedSumPick(m, multiplier);
      } else {
        assert m - {multiplier} == m;
      }
    }
    assert a[multiplier] == before + value;
    Distribute(multiplier, before, value);
  }

  lemma Distribute(k: int, x: int, y: int)
    ensures k * (x + y) == k * x + k * y
  {
  }

  /** Reference definition of a parse: each number times the multiplier it
      is routed to, summed over the source in order. */
  function Contribution(tokens: map<string, int>, items: seq<Item>): int
    decreases |items|
  {
    if items == [] then 0
    else
      var here := match Route(tokens, items[0])
                  case Some(multiplier) => multiplier * items[0].value
                  case None => 0;
      here + Contribution(tokens, items[1..])
  }

  lemma {:induction false} AccumulateWeightedSum(tokens: map<string, int>, items: seq<Item>, acc: map<int, int>)
    ensures WeightedSum(Accumulate(tokens, items, acc)) == WeightedSum(acc) + Contribution(tokens, items)
    decreases |items|
  {
    if items != [] {
      AccumulateWeightedSum(tokens, items[1..], Deliver(tokens, acc, items[0]));
      if Route(tokens, items[0]).Some? {
        WeightedSumAdded(acc, Route(tokens, items[0]).value, items[0].value);
      }
    }
  }

  /** Weighting the buckets of a scan gives the same total as weighting
      every number of the source as it is read. */
  lemma ScanWeightedSum(tokens: map<string, int>, s: string)
    ensures WeightedSum(Scan(tokens, s)) == Contribution(tokens, Lex(s))
  {
    AccumulateWeightedSum(tokens, Lex(s), map[]);
  }

  // ---------------------------------------------------------------------
  // Normalisation
  // ---------------------------------------------------------------------

  datatype Breakdown = Breakdown(days: int, hours: int, minutes: int, seconds: int)

  /** The breakdown `Validate` stores: cascading C++ division and remainder
      by 86400, 3600 and 60. */
  function Normalize(total: int): (b: Breakdown)
    ensures b.days * 86400 + b.hours * 3600 + b.minutes * 60 + b.seconds == total
    ensures -24 < b.hours < 24 && -60 < b.minutes < 60 && -60 < b.seconds < 60
    ensures total >= 0 ==> b.days >= 0 && b.hours >= 0 && b.minutes >= 0 && b.seconds >= 0
    ensures total <= 0 ==> b.days <= 0 && b.hours <= 0 && b.minutes <= 0 && b.seconds <= 0
  {
    var dayRest := Truncated.Mod(total, 86400);
    var hourRest := Truncated.Mod(dayRest, 3600);
    Breakdown(Truncated.Div(total, 86400), Truncated.Div(dayRest, 3600),
              Truncated.Div(hourRest, 60), Truncated.Mod(hourRest, 60))
  }

  /** For a non-negative total the breakdown is the only one that adds up to
      it with hours, minutes and seconds in their clock ranges. */
  lemma NormalizeUnique(total: int, b: Breakdown)
    requires b.days >= 0
    requires 0 <= b.hours < 24 && 0 <= b.minutes < 60 && 0 <= b.seconds < 60
    requires b.days * 86400 + b.hours * 3600 + b.minutes * 60 + b.seconds == total
    ensures Normalize(total) == b
  {
    var n := Normalize(total);
    var clock := b.hours * 3600 + b.minutes * 60 + b.seconds;
    assert 0 <= clock < 86400;
    assert n.days == b.days;
    assert n.hours == b.hours;
    assert n.minutes == b.minutes;
  }

  // ---------------------------------------------------------------------
  // Text
  // ---------------------------------------------------------------------

  /** The text `toString` builds from a breakdown: `"<n>d "`, `"<n>h "` and
      `"<n>m "` for the positive components, then `"<n>s"` when the seconds
      are positive or nothing was written before. */
  function Render(b: Breakdown): (s: string)
    ensures |s| > 0
  {
    var prefix := Segment(b.days, 'd') + Segment(b.hours, 'h') + Segment(b.minutes, 'm');
    if b.seconds > 0 || prefix == [] then prefix + FormatInt(b.seconds) + "s" else prefix
  }

  /** `"<n><unit> "` for a positive component, nothing otherwise. */
  function Segment(n: int, unit: char): string
  {
    if n > 0 then FormatInt(n) + [unit, ' '] else ""
  }

  /** Writing a component's segment after `text` gives `text` followed by
      the segment. */
  lemma AppendSegment(text: string, n: int, unit: char, after: string)
    requires after == if n > 0 then text + FormatInt(n) + [unit, ' '] else text
    ensures after == text + Segment(n, unit)
  {
    if n <= 0 {
      assert text + [] == text;
    }
  }

  /** A unit segment of the text contributes its component times the unit's
      multiplier when scanned back with the default table. */
  lemma ContributionSegment(tokens: map<string, int>, n: int, unit: char, more: string)
    requires n >= 0 && IsAlpha(unit) && [unit] in tokens
    ensures Contribution(tokens, Lex(Segment(n, unit) + more))
         == tokens[[unit]] * n + Contribution(tokens, Lex(more))
  {
    if n > 0 {
      var digits := FormatNat(n);
      assert Segment(n, unit) + more == digits + [unit] + ([' '] + more);
      LexNumber(Segment(n, unit) + more, digits, [unit], [' '] + more);
      ParseFormat(n);
      LexSkip(' ', more);
      var items := [Item(n, [unit])] + Lex(more);
      assert items[0] == Item(n, [unit]) && items[1..] == Lex(more);
    } else {
      assert Segment(n, unit) + more == more;
    }
  }

  /** The seconds part of the text contributes the seconds. */
  lemma ContributionSeconds(n: int, emitted: bool)
    requires n >= 0 && (n > 0 ==> emitted)
    ensures Contribution(DefaultTable(), Lex(if emitted then FormatInt(n) + "s" else "")) == n
  {
    if emitted {
      var digits := FormatNat(n);
      assert FormatInt(n) == digits;
      Associate(digits, "s", []);
      LexNumber(FormatInt(n) + "s", digits, "s", []);
      ParseFormat(n);
      var items := [Item(n, "s")];
      assert Lex(FormatInt(n) + "s") == items;
      assert items[1..] == [];
      ShortUnits();
    }
  }

  lemma Associate(a: string, b: string, c: string)
    ensures a + b + c == a + (b + c)
  {
  }

  lemma Regroup(a: string, b: string, c: string, d: string)
    ensures a + b + c + d == a + (b + (c + d))
  {
  }

  /** The table holds exactly twelve units: the short and the long spelling
      of each of the six multipliers. */
  lemma UnitTable()
    ensures DefaultTable().Keys
         == {"s", "seconds", "m", "minutes", "h", "hours", "d", "days", "mo", "months", "y", "years"}
    ensures DefaultTable()["s"] == DefaultTable()["seconds"] == 1
    ensures DefaultTable()["m"] == DefaultTable()["minutes"] == 60
    ensures DefaultTable()["h"] == DefaultTable()["hours"] == 3600
    ensures DefaultTable()["d"] == DefaultTable()["days"] == 86400
    ensures DefaultTable()["mo"] == DefaultTable()["months"] == 2419200
    ensures DefaultTable()["y"] == DefaultTable()["years"] == 31536000
  {
  }

  /** The one-letter units `toString` writes and their multipliers. */
  lemma ShortUnits()
    ensures ['d'] in DefaultTable() && DefaultTable()[['d']] == 86400
    ensures ['h'] in DefaultTable() && DefaultTable()[['h']] == 3600
    ensures ['m'] in DefaultTable() && DefaultTable()[['m']] == 60
    ensures ['s'] in DefaultTable() && DefaultTable()[['s']] == 1
  {
  }

  /** Each number of the text of a non-negative breakdown is weighted by
      the multiplier of the unit written after it. */
  lemma RenderContribution(b: Breakdown)
    requires b.days >= 0 && b.hours >= 0 && b.minutes >= 0 && b.seconds >= 0
    ensures Contribution(DefaultTable(), Lex(Render(b)))
         == 86400 * b.days + 3600 * b.hours + 60 * b.minutes + b.seconds
  {
    var prefix := Segment(b.days, 'd') + Segment(b.hours, 'h') + Segment(b.minutes, 'm');
    var emitted := b.seconds > 0 || prefix == [];
    var last := if emitted then FormatInt(b.seconds) + "s" else "";
    var fromMinutes := Segment(b.minutes, 'm') + last;
    var fromHours := Segment(b.hours, 'h') + fromMinutes;
    assert Render(b) == prefix + last by {
      if emitted {
        Associate(prefix, FormatInt(b.seconds), "s");
      } else {
        assert prefix + [] == prefix;
      }
    }
    Regroup(Segment(b.days, 'd'), Segment(b.hours, 'h'), Segment(b.minutes, 'm'), last);
    ShortUnits();
    ContributionSeconds(b.seconds, emitted);
    ContributionSegment(DefaultTable(), b.minutes, 'm', last);
    ContributionSegment(DefaultTable(), b.hours, 'h', fromMinutes);
    ContributionSegment(DefaultTable(), b.days, 'd', fromHours);
  }

  /** Scanning what `toString` writes, with the table `Parse` uses, gives
      back the total, for every non-negative total. */
  lemma RenderReadsBack(total: int)
    requires total >= 0
    ensures WeightedSum(Scan(DefaultTable(), Render(Normalize(total)))) == total
  {
    var b := Normalize(total);
    RenderContribution(b);
    ScanWeightedSum(DefaultTable(), Render(b));
  }

  /** A concatenation of pieces that are empty or end in a space is empty or
      ends in a space. */
  lemma EndsInSpace(x: string, y: string)
    requires x == [] || x[|x| - 1] == ' '
    requires y == [] || y[|y| - 1] == ' '
    ensures x + y == [] || (x + y)[|x + y| - 1] == ' '
  {
  }

  /** A segment is written exactly when its component is positive. */
  lemma SegmentEmpty(n: int, unit: char)
    ensures Segment(n, unit) == [] <==> n <= 0
  {
    if n > 0 {
      assert |Segment(n, unit)| >= 2;
    }
  }

  /** The text of a non-negative breakdown ends in a space when the seconds
      are zero and some larger component is not, and in `s` otherwise. */
  lemma RenderLast(b: Breakdown)
    requires b.days >= 0 && b.hours >= 0 && b.minutes >= 0 && b.seconds >= 0
    ensures var s := Render(b);
      s[|s| - 1] == if b.seconds == 0 && (b.days > 0 || b.hours > 0 || b.minutes > 0) then ' ' else 's'
  {
    var prefix := Segment(b.days, 'd') + Segment(b.hours, 'h') + Segment(b.minutes, 'm');
    SegmentEmpty(b.days, 'd');
    SegmentEmpty(b.hours, 'h');
    SegmentEmpty(b.minutes, 'm');
    if b.seconds > 0 || prefix == [] {
      var text := prefix + FormatInt(b.seconds);
      assert Render(b) == text + "s";
    } else {
      EndsInSpace(Segment(b.days, 'd'), Segment(b.hours, 'h'));
      EndsInSpace(Segment(b.days, 'd') + Segment(b.hours, 'h'), Segment(b.minutes, 'm'));
    }
  }

  /** For a non-negative total the seconds component is the total modulo 60. */
  lemma NormalizeSeconds(total: int)
    requires total >= 0
    ensures Normalize(total).seconds == total % 60
  {
    var b := Normalize(total);
    var q := 1440 * b.days + 60 * b.hours + b.minutes;
    assert total == 60 * q + b.seconds;
  }

  /** The text of a non-negative duration ends in `s` when the seconds are
      not zero or the whole duration is zero, and in a space otherwise. */
  lemma RenderEnding(total: int)
    requires total >= 0
    ensures var s := Render(Normalize(total));
      s[|s| - 1] == if total != 0 && total % 60 == 0 then ' ' else 's'
  {
    var b := Normalize(total);
    NormalizeSeconds(total);
    RenderLast(b);
  }

  /** `asSqlInterval`: the total in decimal between fixed words. */
  function SqlInterval(total: int): (s: string)
    ensures |s| > 16 && s[..9] == "interval " && s[|s| - 7..] == " second"
    ensures s[9..|s| - 7] == FormatInt(total)
  {
    var s := "interval " + FormatInt(total) + " second";
    assert s[9..|s| - 7] == FormatInt(total);
    s
  }

  /** For a non-negative total the number in the SQL text reads back as the
      total. */
  lemma SqlIntervalReadsBack(total: int)
    requires total >= 0
    ensures var s := SqlInterval(total); AllDigits(s[9..|s| - 7]) && ParseDecimal(s[9..|s| - 7]) == total
  {
  }

  // ---------------------------------------------------------------------
  // Comparison
  // ---------------------------------------------------------------------

  datatype Ordering = Less | Equivalent | Greater

  function CompareInt(a: int, b: int): Ordering
  {
    if a < b then Less else if a > b then Greater else Equivalent
  }

  /** Comparing totals is a total order: equivalence is equality, the
      comparison flips when its arguments do, and it is transitive. */
  lemma CompareIntOrder(a: int, b: int, c: int)
    ensures CompareInt(a, b) == Equivalent <==> a == b
    ensures CompareInt(a, b) == Less <==> CompareInt(b, a) == Greater
    ensures CompareInt(a, b) == Less && CompareInt(b, c) == Less ==> CompareInt(a, c) == Less
  {
  }

  /** The first decisive comparison of a memberwise comparison. */
  function Then(first: Ordering, rest: Ordering): Ordering
  {
    if first == Equivalent then rest else first
  }

  // ---------------------------------------------------------------------
  // The duration object
  // ---------------------------------------------------------------------

  class TimePeriod {
    var totalDuration: int
    var days: int
    var hours: int
    var minutes: int
    var seconds: int

    /** The stored breakdown is the normalisation of the total. */
    ghost predicate Valid()
      reads this
    {
      Breakdown(days, hours, minutes, seconds) == Normalize(totalDuration)
    }

    /** Stores the breakdown of the total, component by component, from a
        running remainder. */
    method Validate()
      modifies this`days, this`hours, this`minutes, this`seconds
      ensures Valid()
      ensures days * 86400 + hours * 3600 + minutes * 60 + seconds == totalDuration
      ensures totalDuration >= 0 ==> days >= 0 && 0 <= hours < 24 && 0 <= minutes < 60 && 0 <= seconds < 60
    {
      var totalSeconds := totalDuration;
      days := Truncated.Div(totalSeconds, 86400);
      totalSeconds := Truncated.Mod(totalSeconds, 86400);
      hours := Truncated.Div(totalSeconds, 3600);
      totalSeconds := Truncated.Mod(totalSeconds, 3600);
      minutes := Truncated.Div(totalSeconds, 60);
      seconds := Truncated.Mod(totalSeconds, 60);
    }

    /** From components, each of any size: the total is their weighted sum.
        With all four zero this is the default (zero) duration. */
    constructor (seconds: int, minutes: int, hours: int, days: int)
      ensures Valid()
      ensures totalDuration == seconds + 60 * minutes + 3600 * hours + 86400 * days
    {
      totalDuration := seconds + 60 * minutes + 3600 * hours + 86400 * days;
      new;
      Validate();
    }

    /** From text, through `Parse`. */
    constructor FromString(from: string)
      ensures Valid()
      ensures totalDuration == WeightedSum(Scan(DefaultTable(), from))
    {
      var total := Parse(from);
      totalDuration := total;
      new;
      Validate();
    }

    /** From a count of seconds, stored unchanged. */
    constructor FromSeconds(duration: int)
      ensures Valid()
      ensures totalDuration == duration
    {
      totalDuration := duration;
      new;
      Validate();
    }

    /** Scans `from` with the default table and sums multiplier times count
        over the buckets. */
    static method Parse(from: string) returns (total: int)
      ensures total == WeightedSum(Scan(DefaultTable(), from))
    {
      var scanner := new Scanner(from, DefaultTable());
      var result := scanner.ScanTokens();
      assert from[0..] == from;
      total := 0;
      var pending := result;
      while pending != map[]
        invariant total + WeightedSum(pending) == WeightedSum(result)
        decreases |pending|
      {
        assert pending.Keys != {};
        NonEmpty(pending.Keys);
        var multiplier :| multiplier in pending;
        WeightedSumPick(pending, multiplier);
        total := total + multiplier * pending[multiplier];
        assert (pending - {multiplier}).Keys == pending.Keys - {multiplier};
        pending := pending - {multiplier};
      }
    }

    static method ParseFactory(from: string) returns (p: TimePeriod)
      ensures fresh(p) && p.Valid()
      ensures p.totalDuration == WeightedSum(Scan(DefaultTable(), from))
    {
      var total := Parse(from);
      p := new TimePeriod.FromSeconds(total);
    }

    /** The total, which the four components add up to. */
    function Duration(): (total: int)
      reads this
      requires Valid()
      ensures total == Days() * 86400 + Hours() * 3600 + Minutes() * 60 + Seconds()
    {
      totalDuration
    }

    /** Whole days; for a non-negative total, the number of complete days. */
    function Days(): (d: int)
      reads this
      requires Valid()
      ensures totalDuration >= 0 ==> 0 <= d && d * 86400 <= totalDuration < d * 86400 + 86400
    {
      days
    }

    /** Hours past the whole days. */
    function Hours(): (h: int)
      reads this
      requires Valid()
      ensures -24 < h < 24
      ensures totalDuration >= 0 ==> 0 <= h
    {
      hours
    }

    /** Minutes past the whole hours. */
    function Minutes(): (m: int)
      reads this
      requires Valid()
      ensures -60 < m < 60
      ensures totalDuration >= 0 ==> 0 <= m
    {
      minutes
    }

    /** Seconds past the whole minutes. */
    function Seconds(): (s: int)
      reads this
      requires Valid()
      ensures -60 < s < 60
      ensures totalDuration >= 0 ==> 0 <= s
    {
      seconds
    }

    function AsSqlInterval(): (s: string)
      reads this
      ensures |s| > 16 && s[..9] == "interval " && s[|s| - 7..] == " second"
      ensures s[9..|s| - 7] == FormatInt(totalDuration)
    {
      SqlInterval(totalDuration)
    }

    /** A zero total is exactly a breakdown of zeros. */
    function IsZero(): (z: bool)
      reads this
      requires Valid()
      ensures z <==> days == 0 && hours == 0 && minutes == 0 && seconds == 0
    {
      totalDuration == 0
    }

    /** Builds the text piece by piece. */
    method ToString() returns (result: string)
      requires Valid()
      ensures result == Render(Normalize(totalDuration))
    {
      result := "";
      var before := result;
      if days > 0 {
        result := result + FormatInt(days) + "d ";
      }
      AppendSegment(before, days, 'd', result);
      assert before + Segment(days, 'd') == Segment(days, 'd');
      before := result;
      if hours > 0 {
        result := result + FormatInt(hours) + "h ";
      }
      AppendSegment(before, hours, 'h', result);
      before := result;
      if minutes > 0 {
        result := result + FormatInt(minutes) + "m ";
      }
      AppendSegment(before, minutes, 'm', result);
      assert result == Segment(days, 'd') + Segment(hours, 'h') + Segment(minutes, 'm');
      if seconds > 0 || result == [] {
        result := result + FormatInt(seconds) + "s";
      }
    }

    /** The defaulted three-way comparison: memberwise over the total and
        then the four components. Since the components follow from the
        total, it orders by the total alone. */
    function Compare(other: TimePeriod): (o: Ordering)
      reads this, other
      requires Valid() && other.Valid()
      ensures o == CompareInt(totalDuration, other.totalDuration)
    {
      Then(CompareInt(totalDuration, other.totalDuration),
      Then(CompareInt(days, other.days),
      Then(CompareInt(hours, other.hours),
      Then(CompareInt(minutes, other.minutes), CompareInt(seconds, other.seconds)))))
    }

    /** The defaulted equality: memberwise, hence equal totals. */
    function Equals(other: TimePeriod): (e: bool)
      reads this, other
      requires Valid() && other.Valid()
      ensures e <==> totalDuration == other.totalDuration
    {
      totalDuration == other.totalDuration && days == other.days && hours == other.hours &&
      minutes == other.minutes && seconds == other.seconds
    }
  }
}
