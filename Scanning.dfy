/** The tokenizing scanner `CTimePeriod::CScanner`: a cursor walks the
    source; a maximal digit run is a number, the maximal letter run right
    after it (no whitespace between) is its unit literal, and the number is
    added to a map from multiplier to accumulated count. */
module Scanning {
  import opened Decimal

  datatype Option<T> = None | Some(value: T)

  /** The bucket a number with no unit letters goes to. It is fixed in the
      scanner and not looked up in the unit table. */
  const DefaultMultiplier: int := 60

  /** One number of the source together with the letter run glued to it
      (empty when no letter follows the digits). */
  datatype Item = Item(value: nat, literal: string)

  /** The longest prefix of `s` whose characters all satisfy `p`. */
  function Span(p: char -> bool, s: string): (r: string)
    ensures |r| <= |s|
    ensures forall i :: 0 <= i < |r| ==> p(r[i])
    decreases |s|
  {
    if s != [] && p(s[0]) then [s[0]] + Span(p, s[1..]) else []
  }

  /** The span is a prefix of `s`, every character of it satisfies `p`, and
      it is maximal: the character after it, if any, does not. */
  lemma {:induction false} SpanFacts(p: char -> bool, s: string)
    ensures Span(p, s) == s[..|Span(p, s)|]
    ensures |Span(p, s)| < |s| ==> !p(s[|Span(p, s)|])
    decreases |s|
  {
    if s != [] && p(s[0]) {
      SpanFacts(p, s[1..]);
      var r := Span(p, s[1..]);
      assert Span(p, s) == [s[0]] + r;
      assert s == [s[0]] + s[1..];
    }
  }

  /** The number at the head of `s` (which starts with a digit) together
      with the letter run glued to it. */
  function Token(s: string): Item
    requires s != [] && IsDigit(s[0])
  {
    var digits := Span(IsDigit, s);
    Item(ParseDecimal(digits), Span(IsAlpha, s[|digits|..]))
  }

  /** How many characters the token at the head of `s` covers. */
  function TokenLength(s: string): (n: nat)
    requires s != [] && IsDigit(s[0])
    ensures 0 < n <= |s|
  {
    var digits := Span(IsDigit, s);
    |digits| + |Span(IsAlpha, s[|digits|..])|
  }

  /** The numbers of `s` in order, each with the letter run right after it.
      A character that does not start a digit run is skipped on its own. */
  function Lex(s: string): seq<Item>
    decreases |s|
  {
    if s == [] then []
    else if !IsDigit(s[0]) then Lex(s[1..])
    else [Token(s)] + Lex(s[TokenLength(s)..])
  }

  /** The multiplier a number is added under: the default bucket when no
      letters follow it, the table's multiplier when the letters are a key,
      and none (the number is dropped) otherwise. */
  function Route(tokens: map<string, int>, item: Item): Option<int>
  {
    if item.literal == [] then Some(DefaultMultiplier)
    else if item.literal in tokens then Some(tokens[item.literal])
    else None
  }

  /** The count stored under a multiplier, zero when it is absent. */
  function Get(m: map<int, int>, k: int): int
  {
    if k in m then m[k] else 0
  }

  /** The map after adding `value` to the bucket of `multiplier`. */
  function Added(m: map<int, int>, multiplier: int, value: int): (r: map<int, int>)
    ensures r.Keys == m.Keys + {multiplier}
    ensures Get(r, multiplier) == Get(m, multiplier) + value
    ensures forall k :: k != multiplier ==> Get(r, k) == Get(m, k)
  {
    m[multiplier := Get(m, multiplier) + value]
  }

  /** The map after one number has been routed through the table. */
  function Deliver(tokens: map<string, int>, acc: map<int, int>, item: Item): map<int, int>
  {
    match Route(tokens, item)
    case Some(multiplier) => Added(acc, multiplier, item.value)
    case None => acc
  }

  /** `acc` after the numbers of `items` have been delivered left to right. */
  function Accumulate(tokens: map<string, int>, items: seq<Item>, acc: map<int, int>): map<int, int>
    decreases |items|
  {
    if items == [] then acc else Accumulate(tokens, items[1..], Deliver(tokens, acc, items[0]))
  }

  /** What a fresh scanner over `s` with table `tokens` returns. */
  function Scan(tokens: map<string, int>, s: string): map<int, int>
  {
    Accumulate(tokens, Lex(s), map[])
  }

  /** Reference definition of a bucket: the sum of the numbers routed to it. */
  function RoutedSum(tokens: map<string, int>, items: seq<Item>, m: int): int
    decreases |items|
  {
    if items == [] then 0
    else (if Route(tokens, items[0]) == Some(m) then items[0].value else 0) + RoutedSum(tokens, items[1..], m)
  }

  // ---------------------------------------------------------------------
  // What the scanner computes
  // ---------------------------------------------------------------------

  /** The buckets after delivering `items`: a multiplier is a key exactly
      when it was a key before or some number was routed to it, and its
      count grew by the sum of the numbers routed to it. */
  lemma {:induction false} AccumulateBuckets(tokens: map<string, int>, items: seq<Item>, acc: map<int, int>, m: int)
    ensures m in Accumulate(tokens, items, acc) <==>
              m in acc || exists k :: 0 <= k < |items| && Route(tokens, items[k]) == Some(m)
    ensures Get(Accumulate(tokens, items, acc), m) == Get(acc, m) + RoutedSum(tokens, items, m)
    decreases |items|
  {
    if items != [] {
      var next := Deliver(tokens, acc, items[0]);
      AccumulateBuckets(tokens, items[1..], next, m);
      if exists k :: 0 <= k < |items| && Route(tokens, items[k]) == Some(m) {
        var k :| 0 <= k < |items| && Route(tokens, items[k]) == Some(m);
        if k > 0 {
          assert items[1..][k - 1] == items[k];
        }
      }
      if exists k :: 0 <= k < |items[1..]| && Route(tokens, items[1..][k]) == Some(m) {
        var k :| 0 <= k < |items[1..]| && Route(tokens, items[1..][k]) == Some(m);
        assert items[k + 1] == items[1..][k];
      }
    }
  }

  /** The map a scan returns: its keys are exactly the multipliers some
      number of the source was routed to, and each holds the sum of those
      numbers, so repeated units add up. */
  lemma ScanBuckets(tokens: map<string, int>, s: string, m: int)
    ensures m in Scan(tokens, s) <==>
              exists k :: 0 <= k < |Lex(s)| && Route(tokens, Lex(s)[k]) == Some(m)
    ensures m in Scan(tokens, s) ==> Scan(tokens, s)[m] == RoutedSum(tokens, Lex(s), m)
  {
    var empty: map<int, int> := map[];
    AccumulateBuckets(tokens, Lex(s), empty, m);
    assert m !in empty;
  }

  /** The longest `p`-prefix of `x + y` is `x` when `x` satisfies `p`
      throughout and `y` does not start with a `p` character. */
  lemma {:induction false} SpanOf(p: char -> bool, x: string, y: string)
    requires forall i :: 0 <= i < |x| ==> p(x[i])
    requires y == [] || !p(y[0])
    ensures Span(p, x + y) == x
    decreases |x|
  {
    if x == [] {
      assert x + y == y;
    } else {
      var s := x + y;
      assert s[0] == x[0] && p(x[0]);
      assert s[1..] == x[1..] + y;
      SpanOf(p, x[1..], y);
      assert [x[0]] + x[1..] == x;
    }
  }

  /** Appending text after a character that stops the span leaves it alone. */
  lemma {:induction false} SpanPrefix(p: char -> bool, x: string, y: string)
    requires |Span(p, x)| < |x| || y == [] || !p(y[0])
    ensures Span(p, x + y) == Span(p, x)
    decreases |x|
  {
    if x == [] {
      assert x + y == y;
    } else {
      assert (x + y)[0] == x[0];
      if p(x[0]) {
        assert (x + y)[1..] == x[1..] + y;
        SpanPrefix(p, x[1..], y);
      }
    }
  }

  /** A character that does not start a digit run is skipped by itself. */
  lemma LexSkip(c: char, rest: string)
    requires !IsDigit(c)
    ensures Lex([c] + rest) == Lex(rest)
  {
    assert ([c] + rest)[1..] == rest;
  }

  /** The token of `s` read off its digit run and the letter run after it. */
  lemma TokenFromSpans(s: string, digits: string, tail: string)
    requires s != [] && IsDigit(s[0])
    requires Span(IsDigit, s) == digits && s[|digits|..] == tail
    ensures Token(s) == Item(ParseDecimal(digits), Span(IsAlpha, tail))
    ensures TokenLength(s) == |digits| + |Span(IsAlpha, tail)|
  {
  }

  /** The token at the head of a digit run followed by a letter run. */
  lemma TokenOf(s: string, digits: string, literal: string, rest: string)
    requires s == digits + literal + rest
    requires digits != [] && AllDigits(digits)
    requires forall i :: 0 <= i < |literal| ==> IsAlpha(literal[i])
    requires rest == [] || !IsAlpha(rest[0])
    requires literal == [] ==> rest == [] || !IsDigit(rest[0])
    ensures s[0] == digits[0]
    ensures Token(s) == Item(ParseDecimal(digits), literal)
  {
    var tail := literal + rest;
    assert s == digits + tail;
    SpanOf(IsDigit, digits, tail);
    SpanOf(IsAlpha, literal, rest);
    TokenFromSpans(s, digits, tail);
  }

  /** The token covers the digit run and the letter run, nothing more. */
  lemma TokenLengthOf(s: string, digits: string, literal: string, rest: string)
    requires s == digits + literal + rest
    requires digits != [] && AllDigits(digits)
    requires forall i :: 0 <= i < |literal| ==> IsAlpha(literal[i])
    requires rest == [] || !IsAlpha(rest[0])
    requires literal == [] ==> rest == [] || !IsDigit(rest[0])
    ensures s[0] == digits[0]
    ensures TokenLength(s) == |digits| + |literal|
  {
    var tail := literal + rest;
    assert s == digits + tail;
    SpanOf(IsDigit, digits, tail);
    SpanOf(IsAlpha, literal, rest);
    TokenFromSpans(s, digits, tail);
  }

  /** A digit run with the letter run glued to it is one item. */
  lemma LexNumber(s: string, digits: string, literal: string, rest: string)
    requires s == digits + literal + rest
    requires digits != [] && AllDigits(digits)
    requires forall i :: 0 <= i < |literal| ==> IsAlpha(literal[i])
    requires rest == [] || !IsAlpha(rest[0])
    requires literal == [] ==> rest == [] || !IsDigit(rest[0])
    ensures Lex(s) == [Item(ParseDecimal(digits), literal)] + Lex(rest)
  {
    TokenOf(s, digits, literal, rest);
    TokenLengthOf(s, digits, literal, rest);
    assert s[|digits| + |literal|..] == rest;
  }

  /** A number with its unit and then a space is one item; scanning goes on
      after the space. */
  lemma LexUnitThenSpace(s: string, digits: string, unit: string, rest: string)
    requires s == digits + unit + " " + rest
    requires digits != [] && AllDigits(digits)
    requires unit != [] && forall i :: 0 <= i < |unit| ==> IsAlpha(unit[i])
    ensures Lex(s) == [Item(ParseDecimal(digits), unit)] + Lex(rest)
  {
    var after := [' '] + rest;
    assert s == digits + unit + after;
    LexNumber(s, digits, unit, after);
    LexSkip(' ', rest);
  }

  /** A source with no digit yields no numbers. */
  lemma {:induction false} LexNoDigits(s: string)
    requires forall i :: 0 <= i < |s| ==> !IsDigit(s[i])
    ensures Lex(s) == []
    decreases |s|
  {
    if s != [] {
      LexNoDigits(s[1..]);
    }
  }

  /** The token at the head of `a` is unchanged when a separator and more
      text are appended after `a`. */
  lemma TokenSeparated(a: string, c: char, b: string)
    requires a != [] && IsDigit(a[0])
    requires !IsDigit(c) && !IsAlpha(c)
    ensures (a + [c] + b)[0] == a[0]
    ensures Token(a + [c] + b) == Token(a)
    ensures TokenLength(a + [c] + b) == TokenLength(a)
    ensures (a + [c] + b)[TokenLength(a)..] == a[TokenLength(a)..] + [c] + b
  {
    var s := a + [c] + b;
    assert s == a + ([c] + b);
    var digits := Span(IsDigit, a);
    SpanPrefix(IsDigit, a, [c] + b);
    var rest := a[|digits|..];
    assert s[|digits|..] == rest + ([c] + b);
    SpanPrefix(IsAlpha, rest, [c] + b);
  }

  /** A character that is neither a digit nor a letter separates the source
      into two parts that are scanned independently. */
  lemma {:induction false} LexSeparated(a: string, c: char, b: string)
    requires !IsDigit(c) && !IsAlpha(c)
    ensures Lex(a + [c] + b) == Lex(a) + Lex(b)
    decreases |a|
  {
    var s := a + [c] + b;
    if a == [] {
      assert s == [c] + b;
      LexSkip(c, b);
    } else if !IsDigit(a[0]) {
      assert s[0] == a[0];
      assert s[1..] == a[1..] + [c] + b;
      LexSeparated(a[1..], c, b);
    } else {
      TokenSeparated(a, c, b);
      var after := a[TokenLength(a)..];
      LexSeparated(after, c, b);
      assert Lex(s) == [Token(a)] + Lex(after + [c] + b);
      assert Lex(a) == [Token(a)] + Lex(after);
    }
  }

  /** Numbers routed to a multiplier add up over a concatenation. */
  lemma {:induction false} RoutedSumAppend(tokens: map<string, int>, x: seq<Item>, y: seq<Item>, m: int)
    ensures RoutedSum(tokens, x + y, m) == RoutedSum(tokens, x, m) + RoutedSum(tokens, y, m)
    decreases |x|
  {
    if x != [] {
      assert (x + y)[0] == x[0];
      assert (x + y)[1..] == x[1..] + y;
      RoutedSumAppend(tokens, x[1..], y, m);
    } else {
      assert x + y == y;
    }
  }

  /** A multiplier is a bucket of the concatenation's scan exactly when it
      is a bucket of either part's. */
  lemma AccumulateAppendKeys(tokens: map<string, int>, x: seq<Item>, y: seq<Item>, m: int)
    ensures m in Accumulate(tokens, x + y, map[]) <==>
              m in Accumulate(tokens, x, map[]) || m in Accumulate(tokens, y, map[])
  {
    var empty: map<int, int> := map[];
    AccumulateBuckets(tokens, x + y, empty, m);
    AccumulateBuckets(tokens, x, empty, m);
    AccumulateBuckets(tokens, y, empty, m);
    if exists k :: 0 <= k < |x + y| && Route(tokens, (x + y)[k]) == Some(m) {
      var k :| 0 <= k < |x + y| && Route(tokens, (x + y)[k]) == Some(m);
      if k < |x| {
        assert (x + y)[k] == x[k];
      } else {
        assert (x + y)[k] == y[k - |x|];
      }
    }
    if exists k :: 0 <= k < |x| && Route(tokens, x[k]) == Some(m) {
      var k :| 0 <= k < |x| && Route(tokens, x[k]) == Some(m);
      assert (x + y)[k] == x[k];
    }
    if exists k :: 0 <= k < |y| && Route(tokens, y[k]) == Some(m) {
      var k :| 0 <= k < |y| && Route(tokens, y[k]) == Some(m);
      assert (x + y)[|x| + k] == y[k];
    }
  }

  /** Each bucket of the concatenation's scan holds the sum of the parts'. */
  lemma AccumulateAppendGet(tokens: map<string, int>, x: seq<Item>, y: seq<Item>, m: int)
    ensures Get(Accumulate(tokens, x + y, map[]), m)
         == Get(Accumulate(tokens, x, map[]), m) + Get(Accumulate(tokens, y, map[]), m)
  {
    var empty: map<int, int> := map[];
    AccumulateBuckets(tokens, x + y, empty, m);
    AccumulateBuckets(tokens, x, empty, m);
    AccumulateBuckets(tokens, y, empty, m);
    RoutedSumAppend(tokens, x, y, m);
  }

  /** Scanning two parts joined by a separator merges their buckets by
      addition: `"5m 10m"` counts as much as `"5m"` and `"10m"` together. */
  lemma ScanMerge(tokens: map<string, int>, a: string, c: char, b: string, m: int)
    requires !IsDigit(c) && !IsAlpha(c)
    ensures m in Scan(tokens, a + [c] + b) <==> m in Scan(tokens, a) || m in Scan(tokens, b)
    ensures Get(Scan(tokens, a + [c] + b), m) == Get(Scan(tokens, a), m) + Get(Scan(tokens, b), m)
  {
    LexSeparated(a, c, b);
    AccumulateAppendKeys(tokens, Lex(a), Lex(b), m);
    AccumulateAppendGet(tokens, Lex(a), Lex(b), m);
  }

  /** Delivering a list is delivering its head and then its tail. */
  lemma AccumulateCons(tokens: map<string, int>, item: Item, rest: seq<Item>, acc: map<int, int>)
    ensures Accumulate(tokens, [item] + rest, acc) == Accumulate(tokens, rest, Deliver(tokens, acc, item))
  {
    var items := [item] + rest;
    assert items[0] == item && items[1..] == rest;
  }

  lemma AccumulateOne(tokens: map<string, int>, item: Item, acc: map<int, int>)
    ensures Accumulate(tokens, [item], acc) == Deliver(tokens, acc, item)
  {
    assert [item][1..] == [];
  }

  /** Two parts whose scans hold only the default bucket, joined by a
      separator, scan to the sum in that bucket. */
  lemma ScanMergeDefault(tokens: map<string, int>, s: string, a: string, c: char, b: string, x: int, y: int)
    requires s == a + [c] + b
    requires !IsDigit(c) && !IsAlpha(c)
    requires Scan(tokens, a) == map[DefaultMultiplier := x]
    requires Scan(tokens, b) == map[DefaultMultiplier := y]
    ensures Scan(tokens, s) == map[DefaultMultiplier := x + y]
  {
    var whole := Scan(tokens, s);
    forall m
      ensures m in whole <==> m == DefaultMultiplier
      ensures m in whole ==> whole[m] == x + y
    {
      ScanMerge(tokens, a, c, b, m);
    }
  }

  /** A source without digits scans to the empty map; in particular the
      empty source does. */
  lemma ScanNoDigits(tokens: map<string, int>, s: string)
    requires forall i :: 0 <= i < |s| ==> !IsDigit(s[i])
    ensures Scan(tokens, s) == map[]
  {
    LexNoDigits(s);
  }

  /** A bare number goes to the default bucket whatever the table holds. */
  lemma ScanBareNumber(tokens: map<string, int>, digits: string)
    requires digits != [] && AllDigits(digits)
    ensures Scan(tokens, digits) == map[DefaultMultiplier := ParseDecimal(digits)]
  {
    var item := Item(ParseDecimal(digits), []);
    assert Lex(digits) == [item] by {
      assert digits == digits + [] + [];
      LexNumber(digits, digits, [], []);
    }
    AccumulateOne(tokens, item, map[]);
  }

  /** A unit separated from its number by a space is not attached to it:
      the number goes to the default bucket and the letters are skipped. */
  lemma ScanDetachedUnit(tokens: map<string, int>, s: string, digits: string, unit: string)
    requires s == digits + " " + unit
    requires digits != [] && AllDigits(digits)
    requires forall i :: 0 <= i < |unit| ==> IsAlpha(unit[i])
    ensures Scan(tokens, s) == map[DefaultMultiplier := ParseDecimal(digits)]
  {
    var item := Item(ParseDecimal(digits), []);
    assert Lex(digits) == [item] by {
      assert digits == digits + [] + [];
      LexNumber(digits, digits, [], []);
    }
    assert s == digits + [' '] + unit;
    LexSeparated(digits, ' ', unit);
    LexNoDigits(unit);
    assert Lex(s) == [item];
    AccumulateOne(tokens, item, map[]);
  }

  /** A letter run that is not a key of the table contributes nothing and
      raises no error: the scan goes on with what follows. */
  lemma ScanUnknownUnit(tokens: map<string, int>, s: string, digits: string, unit: string, rest: string)
    requires s == digits + unit + rest
    requires digits != [] && AllDigits(digits)
    requires unit != [] && forall i :: 0 <= i < |unit| ==> IsAlpha(unit[i])
    requires unit !in tokens
    requires rest == [] || !IsAlpha(rest[0])
    ensures Scan(tokens, s) == Scan(tokens, rest)
  {
    LexNumber(s, digits, unit, rest);
    var items := [Item(ParseDecimal(digits), unit)] + Lex(rest);
    assert items[1..] == Lex(rest);
  }

  /** Delivering the numbers of `s` is delivering its first token (or
      skipping its first character) and then the numbers of the rest. */
  lemma AccumulateStep(tokens: map<string, int>, s: string, acc: map<int, int>)
    requires s != []
    ensures IsDigit(s[0]) ==>
              Accumulate(tokens, Lex(s), acc)
                == Accumulate(tokens, Lex(s[TokenLength(s)..]), Deliver(tokens, acc, Token(s)))
    ensures !IsDigit(s[0]) ==> Accumulate(tokens, Lex(s), acc) == Accumulate(tokens, Lex(s[1..]), acc)
  {
    if IsDigit(s[0]) {
      var items := [Token(s)] + Lex(s[TokenLength(s)..]);
      assert items[0] == Token(s) && items[1..] == Lex(s[TokenLength(s)..]);
    }
  }

  /** A suffix of `x` split at two cut points. */
  lemma SliceSplit(x: string, i: nat, j: nat, k: nat)
    requires i <= j <= k <= |x|
    ensures x[i..] == x[i..j] + x[j..k] + x[k..]
  {
  }

  // ---------------------------------------------------------------------
  // The scanner object
  // ---------------------------------------------------------------------

  class Scanner {
    const source: string
    const tokens: map<string, int>
    var result: map<int, int>
    var start: nat
    var current: nat

    ghost predicate Valid()
      reads this
    {
      start <= current <= |source|
    }

    constructor (source: string, tokens: map<string, int>)
      ensures Valid()
      ensures this.source == source && this.tokens == tokens
      ensures result == map[] && start == 0 && current == 0
    {
      this.source := source;
      this.tokens := tokens;
      result := map[];
      start, current := 0, 0;
    }

    /** True when no input is left to read. */
    function AtEnd(): (b: bool)
      reads this
      requires Valid()
      ensures b <==> source[current..] == []
    {
      current >= |source|
    }

    /** The next character, or NUL (neither digit nor letter) at the end. */
    function Peek(): (c: char)
      reads this
      requires Valid()
      ensures current < |source| ==> c == source[current]
      ensures current == |source| ==> !IsDigit(c) && !IsAlpha(c)
    {
      if AtEnd() then '\0' else source[current]
    }

    /** Consumes and returns the next character. */
    method Advance() returns (c: char)
      requires Valid() && current < |source|
      modifies this`current
      ensures Valid()
      ensures current == old(current) + 1 && c == source[old(current)]
    {
      c := source[current];
      current := current + 1;
    }

    /** Adds `value` to the bucket of `multiplier`, creating it if absent. */
    method AddValue(multiplier: int, value: int)
      modifies this`result
      ensures result == Added(old(result), multiplier, value)
    {
      if multiplier in result {
        result := result[multiplier := result[multiplier] + value];
      } else {
        result := result[multiplier := value];
      }
    }

    /** Adds `value` under the literal's multiplier; an unknown literal
        changes nothing. */
    method AddLiteralValue(literal: string, value: int)
      modifies this`result
      ensures literal in tokens ==> result == Added(old(result), tokens[literal], value)
      ensures literal !in tokens ==> result == old(result)
    {
      if literal in tokens {
        AddValue(tokens[literal], value);
      }
    }

    /** Reads one token starting at the cursor: a number with its unit, or a
        single skipped character. */
    method ScanToken()
      requires Valid() && start == current < |source|
      modifies this`current, this`result
      ensures Valid()
      ensures IsDigit(source[old(current)]) ==>
                current == old(current) + TokenLength(source[old(current)..]) &&
                result == Deliver(tokens, old(result), Token(source[old(current)..]))
      ensures !IsDigit(source[old(current)]) ==>
                current == old(current) + 1 && result == old(result)
    {
      ghost var s := source[current..];
      var c := Advance();
      if IsDigit(c) {
        while IsDigit(Peek())
          invariant Valid() && start < current
          invariant forall k :: start <= k < current ==> IsDigit(source[k])
          invariant result == old(result)
          decreases |source| - current
        {
          c := Advance();
        }
        var value := source[start..current];
        var offset := current;
        while IsAlpha(Peek())
          invariant Valid() && offset <= current
          invariant forall k :: offset <= k < current ==> IsAlpha(source[k])
          invariant result == old(result)
          decreases |source| - current
        {
          c := Advance();
        }
        var literal := source[offset..current];
        ghost var rest := source[current..];
        SliceSplit(source, start, offset, current);
        TokenOf(s, value, literal, rest);
        TokenLengthOf(s, value, literal, rest);
        if literal == [] {
          AddValue(DefaultMultiplier, ParseDecimal(value));
        } else {
          AddLiteralValue(literal, ParseDecimal(value));
        }
      }
    }

    /** Scans the rest of the source and returns the accumulated buckets. */
    method ScanTokens() returns (r: map<int, int>)
      requires Valid()
      modifies this`start, this`current, this`result
      ensures Valid() && current == |source|
      ensures r == result
      ensures r == Accumulate(tokens, Lex(source[old(current)..]), old(result))
    {
      while !AtEnd()
        invariant Valid()
        invariant Accumulate(tokens, Lex(source[current..]), result)
               == Accumulate(tokens, Lex(source[old(current)..]), old(result))
        decreases |source| - current
      {
        start := current;
        ghost var before, s := result, source[current..];
        ScanToken();
        AccumulateStep(tokens, s, before);
        assert source[current..] == s[current - start..];
      }
      r := result;
    }
  }
}
