/**
 * The "by time of day" heat map of the public viewer: a grid of 24 hour blocks by
 * 7 weekdays, rebuilt from zero and filled from the crash records of the selected
 * year, and the query window that each year tab asks for.
 */
module TimeOfDay {
  import opened Strings

  const Weekdays: seq<string> := ["Sunday", "Monday", "Tuesday", "Wednesday", "Thursday", "Friday", "Saturday"]

  const HourBlocks: seq<string> := [
    "12AM", "01AM", "02AM", "03AM", "04AM", "05AM", "06AM", "07AM", "08AM", "09AM", "10AM", "11AM",
    "12PM", "01PM", "02PM", "03PM", "04PM", "05PM", "06PM", "07PM", "08PM", "09PM", "10PM", "11PM"]

  function Reversed(s: seq<string>): (r: seq<string>)
    ensures |r| == |s|
    ensures forall i :: 0 <= i < |s| ==> r[i] == s[|s| - 1 - i]
  {
    if s == [] then [] else Reversed(s[1..]) + [s[0]]
  }

  /** The day keys of every hour row: pushed in weekday order, then reversed. */
  const DayKeys: seq<string> := Reversed(Weekdays)

  /** A crash as the grid reads it: the weekday index (Sunday is 0), the hour, and its two counts. */
  datatype CrashRecord = CrashRecord(dayOfWeek: int, hour: int, deathCnt: int, seriousInjuryCnt: int)

  predicate InGrid(r: CrashRecord) {
    0 <= r.hour < 24 && 0 <= r.dayOfWeek < 7
  }

  /** What one record adds for the selected crash type. */
  function Amount(r: CrashRecord, crashType: string): int {
    if crashType == "fatalities" then r.deathCnt
    else if crashType == "seriousInjuries" then r.seriousInjuryCnt
    else r.deathCnt + r.seriousInjuryCnt
  }

  /** The sum of the amounts of the records at hour `h` on weekday `d`. */
  function CellTotal(records: seq<CrashRecord>, crashType: string, h: int, d: int): int
    decreases |records|
  {
    if records == [] then 0
    else
      var r := records[|records| - 1];
      CellTotal(records[..|records| - 1], crashType, h, d) + (if r.hour == h && r.dayOfWeek == d then Amount(r, crashType) else 0)
  }

  /** The sum of the amounts of all the records. */
  function Total(records: seq<CrashRecord>, crashType: string): int
    decreases |records|
  {
    if records == [] then 0 else Total(records[..|records| - 1], crashType) + Amount(records[|records| - 1], crashType)
  }

  /** The sum of the amounts of the records at hour `h` on a day whose name is `dayName`. */
  function LabelTotal(records: seq<CrashRecord>, crashType: string, h: int, dayName: string): int
    requires forall k :: 0 <= k < |records| ==> InGrid(records[k])
    decreases |records|
  {
    if records == [] then 0
    else
      var r := records[|records| - 1];
      assert |Weekdays| == 7 && InGrid(r);
      LabelTotal(records[..|records| - 1], crashType, h, dayName)
        + (if r.hour == h && Weekdays[r.dayOfWeek] == dayName then Amount(r, crashType) else 0)
  }

  /** The heat map's grid: one row per hour block, one cell per day key. */
  class Heatmap {
    var hourKeys: seq<string>
    var dayKeys: seq<string>
    var counts: array2<int>

    ghost predicate Valid()
      reads this
    {
      hourKeys == HourBlocks && dayKeys == DayKeys && counts.Length0 == 24 && counts.Length1 == 7
    }

    /**
     * The component as mount and its first `buildDataArray` leave it. The state itself
     * starts as `[]` and is filled once the first fetch returns.
     */
    constructor()
      ensures Valid()
      ensures forall h, d :: 0 <= h < 24 && 0 <= d < 7 ==> counts[h, d] == 0
    {
      hourKeys := HourBlocks;
      dayKeys := DayKeys;
      counts := new int[24, 7]((h, d) => 0);
    }

    /** `buildDataArray`: a fresh grid, every cell 0. */
    method BuildDataArray()
      modifies this
      ensures Valid() && fresh(counts)
      ensures forall h, d :: 0 <= h < 24 && 0 <= d < 7 ==> counts[h, d] == 0
    {
      hourKeys := HourBlocks;
      dayKeys := DayKeys;
      counts := new int[24, 7]((h, d) => 0);
    }

    /**
     * `calculateHourBlockTotals`: the grid rebuilt, then each record's amount added to the
     * cell at its hour and at the position of its weekday index.
     */
    method CalculateHourBlockTotals(records: seq<CrashRecord>, crashType: string)
      requires forall k :: 0 <= k < |records| ==> InGrid(records[k])
      modifies this
      ensures Valid() && fresh(counts)
      ensures forall h, d :: 0 <= h < 24 && 0 <= d < 7 ==> counts[h, d] == CellTotal(records, crashType, h, d)
    {
      BuildDataArray();
      var i := 0;
      while i < |records|
        invariant 0 <= i <= |records|
        invariant Valid() && fresh(counts)
        invariant forall h, d :: 0 <= h < 24 && 0 <= d < 7 ==> counts[h, d] == CellTotal(records[..i], crashType, h, d)
        modifies counts
      {
        var r := records[i];
        assert records[..i + 1][..i] == records[..i];
        counts[r.hour, r.dayOfWeek] := counts[r.hour, r.dayOfWeek] + Amount(r, crashType);
        i := i + 1;
      }
      assert records[..i] == records;
    }

    /** The same accumulation with each record added under the day key that names its weekday. */
    method CalculateHourBlockTotalsByLabel(records: seq<CrashRecord>, crashType: string)
      requires forall k :: 0 <= k < |records| ==> InGrid(records[k])
      modifies this
      ensures Valid() && fresh(counts)
      ensures forall h, c :: 0 <= h < 24 && 0 <= c < 7 ==> counts[h, c] == CellTotal(records, crashType, h, 6 - c)
    {
      BuildDataArray();
      var i := 0;
      while i < |records|
        invariant 0 <= i <= |records|
        invariant Valid() && fresh(counts)
        invariant forall h, c :: 0 <= h < 24 && 0 <= c < 7 ==> counts[h, c] == CellTotal(records[..i], crashType, h, 6 - c)
        modifies counts
      {
        var r := records[i];
        assert records[..i + 1][..i] == records[..i];
        counts[r.hour, 6 - r.dayOfWeek] := counts[r.hour, 6 - r.dayOfWeek] + Amount(r, crashType);
        i := i + 1;
      }
      assert records[..i] == records;
    }
  }

  /** The day key at position `c` is the weekday `6 - c`; only Wednesday sits at its own weekday index. */
  lemma DayKeysReversed()
    ensures forall c :: 0 <= c < 7 ==> DayKeys[c] == Weekdays[6 - c]
    ensures forall c :: 0 <= c < 7 ==> (DayKeys[c] == Weekdays[c] <==> c == 3)
  {
    assert DayKeys == ["Saturday", "Friday", "Thursday", "Wednesday", "Tuesday", "Monday", "Sunday"];
  }

  lemma WeekdaysDistinct()
    ensures forall i, j :: 0 <= i < 7 && 0 <= j < 7 && Weekdays[i] == Weekdays[j] ==> i == j
  {
  }

  /** Totals by weekday index are totals by weekday name, since the seven names differ. */
  lemma {:induction false} CellTotalIsLabelTotal(records: seq<CrashRecord>, crashType: string, h: int, d: int)
    requires forall k :: 0 <= k < |records| ==> InGrid(records[k])
    requires 0 <= d < 7
    ensures CellTotal(records, crashType, h, d) == LabelTotal(records, crashType, h, Weekdays[d])
    decreases |records|
  {
    if records != [] {
      WeekdaysDistinct();
      CellTotalIsLabelTotal(records[..|records| - 1], crashType, h, d);
    }
  }

  /**
   * The corrected grid: every cell counts exactly the crashes on the day its key names.
   */
  lemma ByLabelCellsMatchKeys(records: seq<CrashRecord>, crashType: string, h: int, c: int, cell: int)
    requires forall k :: 0 <= k < |records| ==> InGrid(records[k])
    requires 0 <= c < 7
    requires cell == CellTotal(records, crashType, h, 6 - c)
    ensures cell == LabelTotal(records, crashType, h, DayKeys[c])
  {
    DayKeysReversed();
    CellTotalIsLabelTotal(records, crashType, h, 6 - c);
  }

  /**
   * The grid as written: one fatal crash on a Sunday at midnight leaves the cell keyed
   * "Sunday" at 0 and shows up under "Saturday".
   */
  lemma SundayShownAsSaturday()
    ensures DayKeys[0] == "Saturday" && DayKeys[6] == "Sunday"
    ensures CellTotal([CrashRecord(0, 0, 1, 0)], "fatalities", 0, 0) == 1
    ensures CellTotal([CrashRecord(0, 0, 1, 0)], "fatalities", 0, 6) == 0
    ensures LabelTotal([CrashRecord(0, 0, 1, 0)], "fatalities", 0, "Sunday") == 1
  {
    DayKeysReversed();
    var one := [CrashRecord(0, 0, 1, 0)];
    assert one[..0] == [];
  }

  /** A record adds to its own cell only. */
  lemma {:induction false} CellTotalAppend(records: seq<CrashRecord>, r: CrashRecord, crashType: string, h: int, d: int)
    ensures CellTotal(records + [r], crashType, h, d)
      == CellTotal(records, crashType, h, d) + (if r.hour == h && r.dayOfWeek == d then Amount(r, crashType) else 0)
  {
    assert (records + [r])[..|records|] == records;
  }

  /** The sum of the cells of hour `h` for the days before `n`. */
  function RowSum(records: seq<CrashRecord>, crashType: string, h: int, n: nat): int {
    if n == 0 then 0 else RowSum(records, crashType, h, n - 1) + CellTotal(records, crashType, h, n - 1)
  }

  /** The sum of the cells of the hours before `m`. */
  function GridSum(records: seq<CrashRecord>, crashType: string, m: nat): int {
    if m == 0 then 0 else GridSum(records, crashType, m - 1) + RowSum(records, crashType, m - 1, 7)
  }

  lemma {:induction false} RowSumAppend(records: seq<CrashRecord>, r: CrashRecord, crashType: string, h: int, n: nat)
    requires 0 <= r.dayOfWeek
    ensures RowSum(records + [r], crashType, h, n)
      == RowSum(records, crashType, h, n) + (if r.hour == h && r.dayOfWeek < n then Amount(r, crashType) else 0)
  {
    if n > 0 {
      RowSumAppend(records, r, crashType, h, n - 1);
      CellTotalAppend(records, r, crashType, h, n - 1);
    }
  }

  lemma {:induction false} GridSumAppend(records: seq<CrashRecord>, r: CrashRecord, crashType: string, m: nat)
    requires InGrid(r)
    ensures GridSum(records + [r], crashType, m)
      == GridSum(records, crashType, m) + (if r.hour < m then Amount(r, crashType) else 0)
  {
    if m > 0 {
      GridSumAppend(records, r, crashType, m - 1);
      RowSumAppend(records, r, crashType, m - 1, 7);
    }
  }

  /** The whole grid adds up to the total of the records' amounts: each record lands in exactly one cell. */
  lemma {:induction false} GridAddsUp(records: seq<CrashRecord>, crashType: string)
    requires forall k :: 0 <= k < |records| ==> InGrid(records[k])
    ensures GridSum(records, crashType, 24) == Total(records, crashType)
    decreases |records|
  {
    if records == [] {
      GridSumEmpty(crashType, 24);
    } else {
      var init := records[..|records| - 1];
      var r := records[|records| - 1];
      GridAddsUp(init, crashType);
      assert init + [r] == records;
      GridSumAppend(init, r, crashType, 24);
    }
  }

  lemma {:induction false} GridSumEmpty(crashType: string, m: nat)
    ensures GridSum([], crashType, m) == 0
  {
    if m > 0 {
      GridSumEmpty(crashType, m - 1);
      RowSumEmpty(crashType, m - 1, 7);
    }
  }

  lemma {:induction false} RowSumEmpty(crashType: string, h: int, n: nat)
    ensures RowSum([], crashType, h, n) == 0
  {
    if n > 0 {
      RowSumEmpty(crashType, h, n - 1);
    }
  }

  /**
   * The window the tab asks for: tab 0 is the current summary window; tab N is the whole
   * calendar year N years back.
   */
  function Window(activeTab: nat, currentYear: nat, summaryStart: string, summaryEnd: string): (string, string)
    requires activeTab <= currentYear
  {
    if activeTab == 0 then (summaryStart + "T00:00:00", summaryEnd + "T23:59:59")
    else
      var year := PadDigits(currentYear - activeTab, 4);
      (year + "-01-01T00:00:00", year + "-12-31T23:59:59")
  }

  /** `getFatalitiesByYearsAgoUrl`. */
  function YearsAgoUrl(endpoint: string, crashCondition: string, activeTab: nat, currentYear: nat,
                       summaryStart: string, summaryEnd: string): string
    requires activeTab <= currentYear
  {
    var (from, to) := Window(activeTab, currentYear, summaryStart, summaryEnd);
    endpoint + "?$where=" + crashCondition + " AND crash_date between '" + from + "' and '" + to + "'"
  }

  /**
   * For a past year the window opens on January 1 and closes on December 31 of the year
   * `activeTab` back, written as moment's "YYYY" writes it: at least four digits.
   */
  lemma WindowOfPastYear(activeTab: nat, currentYear: nat, summaryStart: string, summaryEnd: string)
    requires 0 < activeTab <= currentYear
    ensures var (from, to) := Window(activeTab, currentYear, summaryStart, summaryEnd);
      exists year :: |year| >= 4 && AllDigits(year) && DigitsValue(year) == currentYear - activeTab
        && from == year + "-01-01T00:00:00" && to == year + "-12-31T23:59:59"
  {
    var year := PadDigits(currentYear - activeTab, 4);
    assert |year| >= 4 && AllDigits(year) && DigitsValue(year) == currentYear - activeTab;
  }

  /**
   * The URL asks the endpoint for the crash condition and carries the tab's window
   * unchanged, quoted, as its last part; tab 0 asks for the summary dates.
   */
  lemma YearsAgoUrlCarriesWindow(endpoint: string, crashCondition: string, activeTab: nat, currentYear: nat,
                                 summaryStart: string, summaryEnd: string)
    requires activeTab <= currentYear
    ensures var (from, to) := Window(activeTab, currentYear, summaryStart, summaryEnd);
      var url := YearsAgoUrl(endpoint, crashCondition, activeTab, currentYear, summaryStart, summaryEnd);
      var tail := " AND crash_date between '" + from + "' and '" + to + "'";
      var head := endpoint + "?$where=" + crashCondition;
      url == head + tail && url[..|head|] == head && url[|head|..] == tail
    ensures activeTab == 0 ==>
      Window(activeTab, currentYear, summaryStart, summaryEnd) == (summaryStart + "T00:00:00", summaryEnd + "T23:59:59")
  {
    var (from, to) := Window(activeTab, currentYear, summaryStart, summaryEnd);
    var head := endpoint + "?$where=" + crashCondition;
    var tail := " AND crash_date between '" + from + "' and '" + to + "'";
    var url := YearsAgoUrl(endpoint, crashCondition, activeTab, currentYear, summaryStart, summaryEnd);
    assert url == head + " AND crash_date between '" + from + "' and '" + to + "'";
    assert url == head + tail;
  }
}
