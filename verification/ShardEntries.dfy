/**
 The elements of a shard list: numbers and "start-end" ranges as text, how they are parsed, and what they
 denote, stated without the parser.
 */
module ShardEntries {
  import opened Wrappers
  import opened MachineInts

  /** An element of activeShards as the YAML decoder yields it; a float is already truncated to uint64. */
  datatype RawEntry = IntEntry(value: Int64) | FloatEntry(truncated: Uint64) | StringEntry(text: string) | OtherEntry

  datatype EntryError = BadRangeFormat | BadRangeStart | BadRangeEnd | RangeReversed | BadNumber | UnsupportedType

  /** What an entry denotes: one shard, or an inclusive range. */
  datatype Shards = Single(shard: Uint64) | Span(low: Uint64, high: Uint64) {
    predicate Covers(x: Uint64) {
      match this
      case Single(shard) => x == shard
      case Span(low, high) => low <= x <= high
    }
  }

  // ----- Reading an entry -----

  predicate IsDigit(c: char) { '0' <= c <= '9' }

  function DecimalValue(s: string): nat
    requires forall i :: 0 <= i < |s| ==> IsDigit(s[i])
  {
    if s == [] then 0
    else
      assert IsDigit(s[|s| - 1]);
      DecimalValue(s[..|s| - 1]) * 10 + (s[|s| - 1] as int - '0' as int)
  }

  /** Go's strconv.ParseUint(s, 10, 64): digits only, at least one, in range. */
  function ParseUint(s: string): Option<Uint64> {
    if s != [] && (forall i :: 0 <= i < |s| ==> IsDigit(s[i])) && DecimalValue(s) < U64 then Some(DecimalValue(s))
    else None
  }

  predicate IsSpace(c: char) {
    var u := c as int;
    u == 0x20 || 0x09 <= u <= 0x0d || u == 0x85 || u == 0xa0 || u == 0x1680 || 0x2000 <= u <= 0x200a
    || u == 0x2028 || u == 0x2029 || u == 0x202f || u == 0x205f || u == 0x3000
  }

  function TrimLeft(s: string): string {
    if s != [] && IsSpace(s[0]) then TrimLeft(s[1..]) else s
  }

  function TrimRight(s: string): string {
    if s != [] && IsSpace(s[|s| - 1]) then TrimRight(s[..|s| - 1]) else s
  }

  function TrimSpace(s: string): string { TrimRight(TrimLeft(s)) }

  /** The parts of s between separators. */
  function Split(s: string, separator: char): (parts: seq<string>)
    ensures |parts| > 0
  {
    if s == [] then [[]]
    else
      var rest := Split(s[1..], separator);
      if s[0] == separator then [[]] + rest else [[s[0]] + rest[0]] + rest[1..]
  }

  function ParseText(text: string): Result<Shards, EntryError> {
    if '-' in text then
      var parts := Split(text, '-');
      if |parts| != 2 then Failure(BadRangeFormat)
      else
        var low := ParseUint(TrimSpace(parts[0]));
        if low.None? then Failure(BadRangeStart)
        else
          var high := ParseUint(TrimSpace(parts[1]));
          if high.None? then Failure(BadRangeEnd)
          else if low.value > high.value then Failure(RangeReversed)
          else Success(Span(low.value, high.value))
    else
      match ParseUint(text)
      case None => Failure(BadNumber)
      case Some(shard) => Success(Single(shard))
  }

  function ParseEntry(entry: RawEntry): Result<Shards, EntryError> {
    match entry
    case IntEntry(value) => Success(Single(ToUint64(value)))
    case FloatEntry(truncated) => Success(Single(truncated))
    case StringEntry(text) => ParseText(text)
    case OtherEntry => Failure(UnsupportedType)
  }

  // ----- Range text round trip -----

  function FormatUint(n: nat): string {
    (if n < 10 then [] else FormatUint(n / 10)) + [(n % 10 + '0' as int) as char]
  }

  lemma {:induction false} FormatParses(n: nat)
    ensures FormatUint(n) != []
    ensures forall i :: 0 <= i < |FormatUint(n)| ==> IsDigit(FormatUint(n)[i])
    ensures DecimalValue(FormatUint(n)) == n
  {
    var s := FormatUint(n);
    if n >= 10 {
      FormatParses(n / 10);
      assert s[..|s| - 1] == FormatUint(n / 10);
    } else {
      assert s[..|s| - 1] == [];
    }
  }

  lemma {:induction false} SplitWithout(s: string, separator: char)
    requires separator !in s
    ensures Split(s, separator) == [s]
  {
    if s != [] {
      SplitWithout(s[1..], separator);
      assert [s[0]] + s[1..] == s;
    }
  }

  lemma {:induction false} SplitOnce(a: string, separator: char, b: string)
    requires separator !in a && separator !in b
    ensures Split(a + [separator] + b, separator) == [a, b]
  {
    var s := a + [separator] + b;
    if a == [] {
      assert s[1..] == b;
      SplitWithout(b, separator);
      assert Split(s, separator) == [a, b];
    } else {
      assert s[1..] == a[1..] + [separator] + b;
      SplitOnce(a[1..], separator, b);
      assert [a[0]] + a[1..] == a;
    }
  }

  lemma DigitsParse(s: string, n: Uint64)
    requires s != [] && (forall i :: 0 <= i < |s| ==> IsDigit(s[i])) && DecimalValue(s) == n
    ensures TrimSpace(s) == s && ParseUint(s) == Some(n) && '-' !in s
  {
    assert IsDigit(s[0]) && IsDigit(s[|s| - 1]);
  }

  lemma NumbersRoundTrip(n: Uint64)
    ensures ParseUint(TrimSpace(FormatUint(n))) == Some(n) && ParseUint(FormatUint(n)) == Some(n)
    ensures '-' !in FormatUint(n)
  {
    FormatParses(n);
    DigitsParse(FormatUint(n), n);
  }

  /** A written range or number denotes exactly that range or number. */
  lemma TextRoundTrip(low: Uint64, high: Uint64)
    requires low <= high
    ensures ParseText(FormatUint(low) + "-" + FormatUint(high)) == Success(Span(low, high))
    ensures ParseText(FormatUint(low)) == Success(Single(low))
  {
    NumbersRoundTrip(low);
    NumbersRoundTrip(high);
    SplitOnce(FormatUint(low), '-', FormatUint(high));
    assert (FormatUint(low) + "-" + FormatUint(high))[|FormatUint(low)|] == '-';
  }

  // ----- What an entry denotes -----

  predicate Blank(s: string) { forall i :: 0 <= i < |s| ==> IsSpace(s[i]) }

  /** The text is a decimal numeral of n. */
  predicate Numeral(s: string, n: Uint64) {
    s != [] && (forall i :: 0 <= i < |s| ==> IsDigit(s[i])) && DecimalValue(s) == n
  }

  /** The blanks are the white space of Unicode. */
  lemma BlanksAre(c: char)
    ensures Blank([c]) <==>
              c as int in {0x09, 0x0a, 0x0b, 0x0c, 0x0d, 0x20, 0x85, 0xa0, 0x1680, 0x2000, 0x2001, 0x2002, 0x2003, 0x2004,
                           0x2005, 0x2006, 0x2007, 0x2008, 0x2009, 0x200a, 0x2028, 0x2029, 0x202f, 0x205f, 0x3000}
  {
    assert Blank([c]) <==> IsSpace([c][0]);
  }

  /** A numeral with blanks around it. */
  ghost predicate Side(s: string, n: Uint64) {
    exists before: string, digits: string, after: string ::
      s == before + digits + after && Blank(before) && Numeral(digits, n) && Blank(after)
  }

  /** A range of numbers, in any order, as text. */
  ghost predicate RangeText(text: string, low: Uint64, high: Uint64) {
    exists left: string, right: string :: text == left + "-" + right && Side(left, low) && Side(right, high)
  }

  function TwosComplement(value: int): int { if value >= 0 then value else value + U64 }

  /** The shards an entry stands for: an integer itself, modulo 2^64; a truncated float itself; a text the
      number it is, or every number of the range it is. */
  ghost predicate Means(entry: RawEntry, x: Uint64) {
    match entry
    case IntEntry(value) => x == TwosComplement(value)
    case FloatEntry(truncated) => x == truncated
    case StringEntry(text) => Numeral(text, x) || exists low: Uint64, high: Uint64 :: RangeText(text, low, high) && low <= x <= high
    case OtherEntry => false
  }

  /** The entry stands for some shard. */
  ghost predicate Readable(entry: RawEntry) {
    exists x: Uint64 :: Means(entry, x)
  }

  lemma {:induction false} TrimLeftDrops(s: string) returns (before: string)
    ensures s == before + TrimLeft(s) && Blank(before)
  {
    if s != [] && IsSpace(s[0]) {
      before := TrimLeftDrops(s[1..]);
      before := [s[0]] + before;
    } else {
      before := [];
    }
  }

  lemma {:induction false} TrimRightDrops(s: string) returns (after: string)
    ensures s == TrimRight(s) + after && Blank(after)
  {
    if s != [] && IsSpace(s[|s| - 1]) {
      after := TrimRightDrops(s[..|s| - 1]);
      after := after + [s[|s| - 1]];
    } else {
      after := [];
    }
  }

  lemma {:induction false} TrimLeftBlank(before: string, s: string)
    requires Blank(before) && s != [] && !IsSpace(s[0])
    ensures TrimLeft(before + s) == s
  {
    if before == [] {
      assert before + s == s;
    } else {
      assert (before + s)[1..] == before[1..] + s;
      TrimLeftBlank(before[1..], s);
    }
  }

  lemma {:induction false} TrimRightBlank(s: string, after: string)
    requires Blank(after) && s != [] && !IsSpace(s[|s| - 1])
    ensures TrimRight(s + after) == s
  {
    if after == [] {
      assert s + after == s;
    } else {
      assert (s + after)[..|s + after| - 1] == s + after[..|after| - 1];
      TrimRightBlank(s, after[..|after| - 1]);
    }
  }

  lemma ParsedIsSide(s: string, n: Uint64)
    requires ParseUint(TrimSpace(s)) == Some(n)
    ensures Side(s, n)
  {
    hide TrimLeft, TrimRight;
    var before := TrimLeftDrops(s);
    var after := TrimRightDrops(TrimLeft(s));
    assert s == before + TrimSpace(s) + after && Numeral(TrimSpace(s), n);
  }

  lemma SideIsParsed(before: string, digits: string, after: string, n: Uint64)
    requires Blank(before) && Numeral(digits, n) && Blank(after)
    ensures ParseUint(TrimSpace(before + digits + after)) == Some(n)
  {
    hide TrimLeft, TrimRight;
    assert IsDigit(digits[0]) && IsDigit(digits[|digits| - 1]);
    assert before + digits + after == before + (digits + after);
    TrimLeftBlank(before, digits + after);
    TrimRightBlank(digits, after);
  }

  lemma SideIff(s: string, n: Uint64)
    ensures ParseUint(TrimSpace(s)) == Some(n) <==> Side(s, n)
  {
    hide ParseUint, TrimSpace, Blank, Numeral;
    if ParseUint(TrimSpace(s)) == Some(n) {
      ParsedIsSide(s, n);
    }
    if before: string, digits: string, after: string :|
      s == before + digits + after && Blank(before) && Numeral(digits, n) && Blank(after)
    {
      SideIsParsed(before, digits, after, n);
    }
  }

  lemma SideHasNoDash(s: string, n: Uint64)
    requires Side(s, n)
    ensures '-' !in s
  {
    var before: string, digits: string, after: string :|
      s == before + digits + after && Blank(before) && Numeral(digits, n) && Blank(after);
  }

  lemma {:induction false} SplitIntoOne(s: string, separator: char)
    requires |Split(s, separator)| == 1
    ensures separator !in s && Split(s, separator) == [s]
  {
    if s != [] {
      SplitIntoOne(s[1..], separator);
      assert s == [s[0]] + s[1..];
    }
  }

  lemma {:induction false} SplitIntoTwo(s: string, separator: char)
    requires |Split(s, separator)| == 2
    ensures var parts := Split(s, separator);
      s == parts[0] + [separator] + parts[1] && separator !in parts[0] && separator !in parts[1]
  {
    assert s == [s[0]] + s[1..];
    if s[0] == separator {
      SplitIntoOne(s[1..], separator);
    } else {
      SplitIntoTwo(s[1..], separator);
    }
  }

  /** A text with a dash is split in two exactly where it has one dash only. */
  lemma SplitIff(text: string, left: string, right: string)
    ensures Split(text, '-') == [left, right] <==> text == left + "-" + right && '-' !in left && '-' !in right
  {
    if Split(text, '-') == [left, right] {
      SplitIntoTwo(text, '-');
    }
    if text == left + "-" + right && '-' !in left && '-' !in right {
      SplitOnce(left, '-', right);
    }
  }

  lemma NumeralHasNoDash(text: string, n: Uint64)
    requires Numeral(text, n)
    ensures '-' !in text
  {
  }

  lemma RangeTextSplits(text: string, low: Uint64, high: Uint64) returns (left: string, right: string)
    requires RangeText(text, low, high)
    ensures '-' in text && Split(text, '-') == [left, right] && Side(left, low) && Side(right, high)
  {
    left, right :| text == left + "-" + right && Side(left, low) && Side(right, high);
    SideHasNoDash(left, low);
    SideHasNoDash(right, high);
    SplitIff(text, left, right);
    assert text[|left|] == '-';
  }

  /** A text is read as one number exactly if it is that numeral, without blanks. */
  lemma NumberTextIff(text: string, n: Uint64)
    ensures ParseText(text) == Success(Single(n)) <==> Numeral(text, n)
  {
    if Numeral(text, n) {
      NumeralHasNoDash(text, n);
    }
  }

  /** A text is read as a range exactly if it is one, blanks around its numbers allowed, and not reversed;
      a reversed range is an error. */
  lemma RangeTextIff(text: string, low: Uint64, high: Uint64)
    ensures ParseText(text) == Success(Span(low, high)) <==> RangeText(text, low, high) && low <= high
    ensures RangeText(text, low, high) && low > high ==> ParseText(text) == Failure(RangeReversed)
  {
    hide ParseUint, TrimSpace, Side;
    if RangeText(text, low, high) {
      var left, right := RangeTextSplits(text, low, high);
      SideIff(left, low);
      SideIff(right, high);
    }
    if ParseText(text) == Success(Span(low, high)) {
      var parts := Split(text, '-');
      SplitIff(text, parts[0], parts[1]);
      SideIff(parts[0], low);
      SideIff(parts[1], high);
    }
  }

  lemma TextMeans(text: string, x: Uint64)
    ensures Means(StringEntry(text), x) <==> ParseText(text).Success? && ParseText(text).value.Covers(x)
  {
    hide ParseText, RangeText, Numeral;
    NumberTextIff(text, x);
    if ParseText(text).Success? {
      match ParseText(text).value
      case Single(shard) => NumberTextIff(text, shard);
      case Span(low, high) => RangeTextIff(text, low, high);
    }
    if low: Uint64, high: Uint64 :| RangeText(text, low, high) && low <= x <= high {
      RangeTextIff(text, low, high);
    }
  }

  lemma NegativeWraps(value: Int64)
    ensures ToUint64(value) == TwosComplement(value)
  {
  }

  /** An entry is accepted exactly if it stands for some shard, and then covers exactly those it stands for. */
  lemma EntryMeans(entry: RawEntry)
    ensures ParseEntry(entry).Success? <==> Readable(entry)
    ensures ParseEntry(entry).Success? ==> forall x :: ParseEntry(entry).value.Covers(x) <==> Means(entry, x)
  {
    match entry {
      case IntEntry(value) =>
        NegativeWraps(value);
        assert Means(entry, ToUint64(value));
      case FloatEntry(truncated) => assert Means(entry, truncated);
      case StringEntry(text) =>
        hide Means, ParseText;
        forall x: Uint64
          ensures Means(entry, x) <==> ParseText(text).Success? && ParseText(text).value.Covers(x)
        {
          TextMeans(text, x);
        }
        if ParseText(text).Success? {
          if ParseText(text).value.Span? {
            SpanInOrder(text);
          }
          assert ParseText(text).value.Covers(if ParseText(text).value.Single? then ParseText(text).value.shard else ParseText(text).value.low);
        }
      case OtherEntry =>
    }
  }

  lemma SpanInOrder(text: string)
    requires ParseText(text).Success? && ParseText(text).value.Span?
    ensures ParseText(text).value.low <= ParseText(text).value.high
  {
  }

  /** The error of an entry that stands for nothing. */
  lemma WhichError(entry: RawEntry)
    ensures entry.OtherEntry? ==> ParseEntry(entry) == Failure(UnsupportedType)
    ensures entry.StringEntry? && '-' !in entry.text && !Readable(entry) ==> ParseEntry(entry) == Failure(BadNumber)
  {
    EntryMeans(entry);
  }

  /** The error of a text around one dash, and of one with more. */
  lemma WhichRangeError(left: string, right: string)
    requires '-' !in left
    ensures var r := ParseText(left + "-" + right);
      if '-' in right then r == Failure(BadRangeFormat)
      else if forall n :: !Side(left, n) then r == Failure(BadRangeStart)
      else if forall n :: !Side(right, n) then r == Failure(BadRangeEnd)
      else r.Success? || r == Failure(RangeReversed)
  {
    hide ParseUint, TrimSpace, Side;
    var text := left + "-" + right;
    assert text[|left|] == '-';
    if '-' in right {
      if |Split(text, '-')| == 2 {
        SplitIntoTwo(text, '-');
        FirstDash(left, right, Split(text, '-')[0], Split(text, '-')[1]);
      }
    } else {
      SplitIff(text, left, right);
      ParsesASide(left);
      ParsesASide(right);
    }
  }

  lemma ParsesASide(s: string)
    ensures ParseUint(TrimSpace(s)).Some? <==> exists n :: Side(s, n)
  {
    if ParseUint(TrimSpace(s)).Some? {
      SideIff(s, ParseUint(TrimSpace(s)).value);
    }
    if n :| Side(s, n) {
      SideIff(s, n);
    }
  }

  lemma DashAfter(a: string, b: string)
    requires '-' !in a
    ensures var s := a + "-" + b;
      s[|a|] == '-' && (forall k :: 0 <= k < |a| ==> s[k] != '-') && s[..|a|] == a && s[|a| + 1..] == b
  {
  }

  lemma FirstDash(a: string, b: string, c: string, d: string)
    requires a + "-" + b == c + "-" + d && '-' !in a && '-' !in c
    ensures a == c && b == d
  {
    DashAfter(a, b);
    DashAfter(c, d);
  }
}
