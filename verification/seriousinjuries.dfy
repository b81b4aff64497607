/**
 * The year-to-date serious-injury widget of the public viewer: the two date windows it
 * asks the open-data portal for, and the total it adds up from the rows that come back.
 */
module SeriousInjuries {
  import opened Results
  import opened Strings
  import opened Dicts
  import opened JsValues

  /** The characters `parseInt` skips before the number: white space and line terminators. */
  predicate IsJsSpace(c: char) {
    ('\U{9}' <= c <= '\U{D}') || c == ' ' || c == '\U{A0}' || c == '\U{FEFF}' || c == '\U{1680}'
    || ('\U{2000}' <= c <= '\U{200A}') || c == '\U{2028}' || c == '\U{2029}'
    || c == '\U{202F}' || c == '\U{205F}' || c == '\U{3000}'
  }

  function TrimStartJs(s: string): string {
    if s != [] && IsJsSpace(s[0]) then TrimStartJs(s[1..]) else s
  }

  /** The longest prefix of decimal digits. */
  function DigitPrefix(s: string): (d: string)
    ensures AllDigits(d)
  {
    if s != [] && IsDigit(s[0]) then [s[0]] + DigitPrefix(s[1..]) else []
  }

  predicate IsHexDigit(c: char) {
    IsDigit(c) || ('a' <= c <= 'f') || ('A' <= c <= 'F')
  }

  function HexDigitValue(c: char): nat
    requires IsHexDigit(c)
  {
    if IsDigit(c) then c as int - '0' as int
    else if 'a' <= c <= 'f' then c as int - 'a' as int + 10
    else c as int - 'A' as int + 10
  }

  /** The longest prefix of hexadecimal digits. */
  function HexPrefix(s: string): (d: string)
    ensures forall i :: 0 <= i < |d| ==> IsHexDigit(d[i])
  {
    if s != [] && IsHexDigit(s[0]) then [s[0]] + HexPrefix(s[1..]) else []
  }

  function HexValue(s: string): nat
    requires forall i :: 0 <= i < |s| ==> IsHexDigit(s[i])
  {
    if s == [] then 0 else HexValue(s[..|s| - 1]) * 16 + HexDigitValue(s[|s| - 1])
  }

  /**
   * `parseInt(text)` with no radix: leading white space skipped, an optional sign, then
   * the number. None is NaN, when no digit was read.
   */
  function ParseIntJs(text: string): Option<int> {
    var t := TrimStartJs(text);
    if t != [] && t[0] == '-' then
      var magnitude := ParseUnsigned(t[1..]);
      if magnitude.None? then None else Some(0 - magnitude.value as int)
    else if t != [] && t[0] == '+' then ParseUnsigned(t[1..])
    else ParseUnsigned(t)
  }

  /**
   * The number after the sign: hexadecimal digits after "0x" or "0X", decimal digits
   * otherwise, each up to the first character that is not one.
   */
  function ParseUnsigned(rest: string): Option<nat> {
    if |rest| >= 2 && rest[0] == '0' && (rest[1] == 'x' || rest[1] == 'X') then
      var digits := HexPrefix(rest[2..]);
      if digits == [] then None else Some(HexValue(digits))
    else
      var digits := DigitPrefix(rest);
      if digits == [] then None else Some(DigitsValue(digits))
  }

  lemma {:induction false} DigitPrefixOf(d: string, suffix: string)
    requires AllDigits(d)
    requires suffix == [] || !IsDigit(suffix[0])
    ensures DigitPrefix(d + suffix) == d
  {
    if d == [] {
      assert d + suffix == suffix;
    } else {
      assert (d + suffix)[1..] == d[1..] + suffix;
      assert AllDigits(d[1..]);
      DigitPrefixOf(d[1..], suffix);
      assert [d[0]] + d[1..] == d;
    }
  }

  /** Decimal digits, followed by anything that does not continue them, read as their value. */
  lemma ParseUnsignedDecimal(n: nat, suffix: string)
    requires suffix == [] || !IsDigit(suffix[0])
    requires n == 0 ==> suffix == [] || (suffix[0] != 'x' && suffix[0] != 'X')
    ensures ParseUnsigned(NatToString(n) + suffix) == Some(n)
  {
    var digits := NatToString(n);
    var rest := digits + suffix;
    DigitPrefixOf(digits, suffix);
    if |rest| >= 2 && rest[0] == '0' {
      assert digits == "0";
      assert rest[1] == suffix[0];
    }
  }

  /**
   * The decimal text of a number, followed by anything that does not continue it, reads
   * back as that number; a 0 followed by "x" or "X" would start a hexadecimal number instead.
   */
  lemma ParseIntJsReadsNat(n: nat, suffix: string)
    requires suffix == [] || !IsDigit(suffix[0])
    requires n == 0 ==> suffix == [] || (suffix[0] != 'x' && suffix[0] != 'X')
    ensures ParseIntJs(NatToString(n) + suffix) == Some(n)
  {
    var text := NatToString(n) + suffix;
    ParseUnsignedDecimal(n, suffix);
    assert text[0] == NatToString(n)[0] && IsDigit(text[0]);
    assert TrimStartJs(text) == text;
  }

  /** A negative number's text, "-" and its digits, reads back the same way. */
  lemma ParseIntJsReadsNegative(n: int, suffix: string)
    requires n < 0
    requires suffix == [] || !IsDigit(suffix[0])
    ensures ParseIntJs(IntToString(n) + suffix) == Some(n)
  {
    ParseUnsignedDecimal(-n, suffix);
    ParseIntJsMinus(NatToString(-n), suffix, -n);
  }

  lemma ParseIntJsMinus(digits: string, suffix: string, m: nat)
    requires ParseUnsigned(digits + suffix) == Some(m)
    ensures ParseIntJs("-" + digits + suffix) == Some(-(m as int))
  {
    var text := "-" + digits + suffix;
    assert text[0] == '-' && text[1..] == digits + suffix;
    assert TrimStartJs(text) == text;
  }

  /** Text with no digit where the number should start is NaN. */
  lemma ParseIntJsNaN(text: string)
    requires TrimStartJs(text) == [] || !IsDigit(TrimStartJs(text)[0])
    requires TrimStartJs(text) == [] || (TrimStartJs(text)[0] != '-' && TrimStartJs(text)[0] != '+')
    ensures ParseIntJs(text) == None
  {
  }

  /** JavaScript `+` on numbers, with NaN absorbing. */
  function AddJs(a: Option<int>, b: Option<int>): Option<int> {
    if a.Some? && b.Some? then Some(a.value + b.value) else None
  }

  /** `parseInt(record.sus_serious_injry_cnt)`; a record without the field reads `undefined`, which is NaN. */
  function InjuryCount(record: Dict<JsValue>): Option<int> {
    ParseIntJs(ToText(Get(record, "sus_serious_injry_cnt").GetOr(Undefined)))
  }

  /** A row whose count is a number, or the text of one (as the portal sends it), counts that number. */
  lemma InjuryCountReads(record: Dict<JsValue>, n: int)
    requires Get(record, "sus_serious_injry_cnt") in {Some(Num(n)), Some(Str(IntToString(n)))}
    ensures InjuryCount(record) == Some(n)
  {
    assert IntToString(n) + [] == IntToString(n);
    if n >= 0 {
      ParseIntJsReadsNat(n, []);
    } else {
      ParseIntJsReadsNegative(n, []);
    }
  }

  /** The running total of `count` over the items, added in order starting from 0. */
  function SumBy<T>(items: seq<T>, count: T -> Option<int>): Option<int> {
    if items == [] then Some(0)
    else AddJs(SumBy(items[..|items| - 1], count), count(items[|items| - 1]))
  }

  /** The injury total of the rows. */
  function TotalInjuries(records: seq<Dict<JsValue>>): Option<int> {
    SumBy(records, InjuryCount)
  }

  /** `calculateTotalInjuries` on the rows of the response. */
  method CalculateTotalInjuries(records: seq<Dict<JsValue>>) returns (total: Option<int>)
    ensures total == TotalInjuries(records)
    ensures total.Some? <==> forall k :: 0 <= k < |records| ==> InjuryCount(records[k]).Some?
  {
    total := Some(0);
    var i := 0;
    while i < |records|
      invariant 0 <= i <= |records|
      invariant total == SumBy(records[..i], InjuryCount)
    {
      assert records[..i + 1][..i] == records[..i];
      total := AddJs(total, InjuryCount(records[i]));
      i := i + 1;
    }
    assert records[..i] == records;
    SumDefined(records, InjuryCount);
  }

  /** The total is a number exactly when every item's count is. */
  lemma {:induction false} SumDefined<T>(items: seq<T>, count: T -> Option<int>)
    ensures SumBy(items, count).Some? <==> forall k :: 0 <= k < |items| ==> count(items[k]).Some?
  {
    if items != [] {
      var front := items[..|items| - 1];
      SumDefined(front, count);
      assert forall k :: 0 <= k < |front| ==> front[k] == items[k];
    }
  }

  /** The total over two lists is the sum of their totals. */
  lemma {:induction false} SumAppend<T>(a: seq<T>, b: seq<T>, count: T -> Option<int>)
    ensures SumBy(a + b, count) == AddJs(SumBy(a, count), SumBy(b, count))
  {
    if b == [] {
      assert a + b == a;
    } else {
      var front := b[..|b| - 1];
      assert (a + b)[..|a + b| - 1] == a + front;
      assert (a + b)[|a + b| - 1] == b[|b| - 1];
      SumAppend(a, front, count);
    }
  }

  /** The order the items come in does not change the total. */
  lemma {:induction false} SumPermutation<T>(a: seq<T>, b: seq<T>, count: T -> Option<int>)
    requires multiset(a) == multiset(b)
    ensures SumBy(a, count) == SumBy(b, count)
    decreases |a|
  {
    if a == [] {
      assert |b| == |multiset(b)| == 0;
    } else {
      var x := a[|a| - 1];
      var front := a[..|a| - 1];
      assert a == front + [x];
      assert x in multiset(b);
      var j :| 0 <= j < |b| && b[j] == x;
      var b1, b2 := b[..j], b[j + 1..];
      assert b == b1 + [x] + b2;
      MultisetCancel(front, x, b1, b2);
      SumPermutation(front, b1 + b2, count);
      SumSplice(b1, x, b2, count);
    }
  }

  lemma MultisetCancel<T>(front: seq<T>, x: T, b1: seq<T>, b2: seq<T>)
    requires multiset(front + [x]) == multiset(b1 + [x] + b2)
    ensures multiset(front) == multiset(b1 + b2)
  {
    assert multiset(front + [x]) == multiset(front) + multiset([x]);
    assert multiset(b1 + [x] + b2) == multiset(b1 + b2) + multiset([x]);
    forall e ensures multiset(front)[e] == multiset(b1 + b2)[e] {
      assert (multiset(front) + multiset([x]))[e] == (multiset(b1 + b2) + multiset([x]))[e];
    }
  }

  /** An item taken out of the middle and added last leaves the total as it was. */
  lemma SumSplice<T>(b1: seq<T>, x: T, b2: seq<T>, count: T -> Option<int>)
    ensures SumBy(b1 + [x] + b2, count) == AddJs(SumBy(b1 + b2, count), count(x))
  {
    SumAppend(b1 + [x], b2, count);
    SumAppend(b1, [x], count);
    SumAppend(b1, b2, count);
    assert [x][..0] == [];
    AddJsSwap(SumBy(b1, count), SumBy([x], count), SumBy(b2, count));
  }

  lemma AddJsSwap(p: Option<int>, q: Option<int>, r: Option<int>)
    ensures AddJs(AddJs(p, q), r) == AddJs(AddJs(p, r), q)
  {
  }

  /** A calendar date as the clock gives it. */
  datatype Date = Date(year: nat, month: nat, day: nat)

  /** moment's "YYYY-MM-DD". */
  function FormatDate(year: nat, month: nat, day: nat): string {
    PadDigits(year, 4) + "-" + PadDigits(month, 2) + "-" + PadDigits(day, 2)
  }

  /** The year-to-date window: January 1 of this year through the end of today. */
  function YearToDateWindow(today: Date): (string, string) {
    (PadDigits(today.year, 4) + "-01-01T00:00:00", FormatDate(today.year, today.month, today.day) + "T23:59:59")
  }

  /**
   * The window of the year before: January 1 of last year through the same month and
   * day, one year back. The month and day are copied as text, so February 29 stays.
   */
  function PreviousYearWindow(today: Date): (string, string)
    requires today.year >= 1
  {
    var lastYear := PadDigits(today.year - 1, 4);
    (lastYear + "-01-01T00:00:00",
     lastYear + "-" + PadDigits(today.month, 2) + "-" + PadDigits(today.day, 2) + "T23:59:59")
  }

  /** The previous-year window is this year's window moved back one year, day for day. */
  lemma PreviousYearWindowIsYearBack(today: Date)
    requires today.year >= 1
    ensures PreviousYearWindow(today) == YearToDateWindow(Date(today.year - 1, today.month, today.day))
  {
  }

  /**
   * Both ends of a window carry the same year, written in at least four digits that read
   * as the year; the window opens at the first second of January 1.
   */
  lemma WindowYear(today: Date)
    ensures var (from, to) := YearToDateWindow(today);
      exists y :: |y| >= 4 && AllDigits(y) && DigitsValue(y) == today.year
        && from == y + "-01-01T00:00:00" && to[..|y| + 1] == y + "-"
  {
    var y := PadDigits(today.year, 4);
    var (from, to) := YearToDateWindow(today);
    assert to == y + "-" + PadDigits(today.month, 2) + "-" + PadDigits(today.day, 2) + "T23:59:59";
    assert to[..|y| + 1] == y + "-";
  }

  /** The portal endpoint and the condition both queries share: rows with a serious injury. */
  const SeriousInjuryQuery: string :=
    "https://data.austintexas.gov/resource/y2wy-tgr5.json?$where=sus_serious_injry_cnt > 0"

  /** The two portal queries: rows with a serious injury whose crash date falls in the window. */
  function InjuryUri(window: (string, string)): string {
    SeriousInjuryQuery + " AND crash_date between '" + window.0 + "' and '" + window.1 + "'"
  }

  /**
   * Both portal queries ask for the rows with a serious injury and carry their window
   * unchanged, quoted, as the last part of the URL.
   */
  lemma InjuryUriCarriesWindow(window: (string, string))
    ensures var tail := " AND crash_date between '" + window.0 + "' and '" + window.1 + "'";
      InjuryUri(window) == SeriousInjuryQuery + tail
      && InjuryUri(window)[..|SeriousInjuryQuery|] == SeriousInjuryQuery
      && InjuryUri(window)[|SeriousInjuryQuery|..] == tail
  {
    var tail := " AND crash_date between '" + window.0 + "' and '" + window.1 + "'";
    assert InjuryUri(window) == SeriousInjuryQuery + tail;
  }
}
