/**
 * The editor's year-to-date dashboard: the years-of-life-lost total and the
 * thousands separator applied to every figure it shows.
 */
module Dashboard {
  import opened Results
  import opened Strings

  /** A character `\w` matches. */
  predicate IsWordChar(c: char) {
    ('a' <= c <= 'z') || ('A' <= c <= 'Z') || IsDigit(c) || c == '_'
  }

  /** The number of digits in the run that starts at `p`. */
  function DigitRun(s: string, p: nat): nat
    requires p <= |s|
    decreases |s| - p
  {
    if p < |s| && IsDigit(s[p]) then 1 + DigitRun(s, p + 1) else 0
  }

  /**
   * Where `/\B(?=(\d{3})+(?!\d))/` matches: not at a word boundary, and followed by a run of
   * digits whose length is a positive multiple of 3.
   */
  predicate BreaksAt(s: string, p: nat)
    requires p <= |s|
  {
    var before := p > 0 && IsWordChar(s[p - 1]);
    var after := p < |s| && IsWordChar(s[p]);
    before == after && DigitRun(s, p) >= 3 && DigitRun(s, p) % 3 == 0
  }

  /** The text from `p` on, with "," inserted at every position where the pattern matches. */
  function Separated(s: string, p: nat): string
    requires p <= |s|
    decreases |s| - p
  {
    if p == |s| then "" else (if BreaksAt(s, p) then "," else "") + [s[p]] + Separated(s, p + 1)
  }

  /** `commaSeparator`: the global replace of every match of the empty pattern by ",". */
  function CommaSeparator(text: string): string {
    Separated(text, 0)
  }

  function RemoveCommas(s: string): (r: string)
    ensures ',' !in r
  {
    if s == [] then [] else (if s[0] == ',' then [] else [s[0]]) + RemoveCommas(s[1..])
  }

  lemma {:induction false} RemoveCommasAppend(a: string, b: string)
    ensures RemoveCommas(a + b) == RemoveCommas(a) + RemoveCommas(b)
  {
    if a == [] {
      assert a + b == b;
    } else {
      var head := if a[0] == ',' then [] else [a[0]];
      assert (a + b)[0] == a[0];
      assert (a + b)[1..] == a[1..] + b;
      RemoveCommasAppend(a[1..], b);
      assert RemoveCommas(a + b) == head + (RemoveCommas(a[1..]) + RemoveCommas(b));
      assert RemoveCommas(a) == head + RemoveCommas(a[1..]);
    }
  }

  lemma {:induction false} RemoveCommasKeeps(s: string)
    requires ',' !in s
    ensures RemoveCommas(s) == s
  {
    if s != [] {
      RemoveCommasKeeps(s[1..]);
    }
  }

  lemma {:induction false} SeparatedRemoveCommas(s: string, p: nat)
    requires p <= |s| && ',' !in s
    ensures RemoveCommas(Separated(s, p)) == s[p..]
    decreases |s| - p
  {
    if p < |s| {
      SeparatedRemoveCommas(s, p + 1);
      var mark := if BreaksAt(s, p) then "," else "";
      assert Separated(s, p) == (mark + [s[p]]) + Separated(s, p + 1);
      RemoveCommasAppend(mark + [s[p]], Separated(s, p + 1));
      RemoveCommasMark(mark, s[p]);
      assert [s[p]] + s[p + 1..] == s[p..];
    }
  }

  lemma RemoveCommasMark(mark: string, c: char)
    requires mark == "" || mark == ","
    requires c != ','
    ensures RemoveCommas(mark + [c]) == [c]
  {
    assert RemoveCommas([c]) == [c] by {
      assert [c][1..] == [];
    }
    if mark == "," {
      assert (mark + [c])[1..] == [c];
    } else {
      assert mark + [c] == [c];
    }
  }

  lemma DigitsHaveNoComma(s: string)
    requires AllDigits(s)
    ensures ',' !in s
  {
    forall i | 0 <= i < |s| ensures s[i] != ',' { assert IsDigit(s[i]); }
  }

  /** Removing the commas gives back the text, for any text that had none. */
  lemma CommaSeparatorRemoveCommas(text: string)
    requires ',' !in text
    ensures RemoveCommas(CommaSeparator(text)) == text
  {
    SeparatedRemoveCommas(text, 0);
  }

  /** Past the first position, a text of at most three characters has no run of three digits to break before. */
  lemma {:induction false} SeparatedShort(s: string, p: nat)
    requires 1 <= p <= |s| <= 3
    ensures Separated(s, p) == s[p..]
    decreases |s| - p
  {
    if p < |s| {
      SeparatedShort(s, p + 1);
      RunBound(s, p);
      assert [s[p]] + s[p + 1..] == s[p..];
    }
  }

  lemma {:induction false} RunBound(s: string, p: nat)
    requires p <= |s|
    ensures DigitRun(s, p) <= |s| - p
    decreases |s| - p
  {
    if p < |s| { RunBound(s, p + 1); }
  }

  /** Texts of up to three characters come back unchanged. */
  lemma ShortUnchanged(text: string)
    requires |text| <= 3
    ensures CommaSeparator(text) == text
  {
    if text != [] {
      SeparatedShort(text, 1);
      RunBound(text, 0);
      assert !BreaksAt(text, 0);
      assert [text[0]] + text[1..] == text;
    }
  }

  lemma {:induction false} DigitRunAll(s: string, p: nat)
    requires AllDigits(s) && p <= |s|
    ensures DigitRun(s, p) == |s| - p
    decreases |s| - p
  {
    if p < |s| { DigitRunAll(s, p + 1); }
  }

  /** In a digit string, breaks fall inside the text where a multiple of three digits remain. */
  lemma DigitBreaks(s: string, p: nat)
    requires AllDigits(s) && p <= |s|
    ensures BreaksAt(s, p) <==> 0 < p < |s| && (|s| - p) % 3 == 0
  {
    DigitRunAll(s, p);
  }

  /** The insertion for a text of digits only: a comma wherever a positive multiple of three characters remain. */
  function ThreesFrom(s: string, p: nat): string
    requires p <= |s|
    decreases |s| - p
  {
    if p == |s| then "" else (if 0 < p && (|s| - p) % 3 == 0 then "," else "") + [s[p]] + ThreesFrom(s, p + 1)
  }

  /** On a digit string the pattern breaks exactly where `ThreesFrom` puts its commas. */
  lemma {:induction false} SeparatedDigits(s: string, p: nat)
    requires AllDigits(s) && p <= |s|
    ensures Separated(s, p) == ThreesFrom(s, p)
    decreases |s| - p
  {
    if p < |s| {
      SeparatedDigits(s, p + 1);
      DigitBreaks(s, p);
    }
  }

  /** Inserting into a text is inserting into all but its last three characters, then ",", then those three. */
  lemma {:induction false} ThreesDropGroup(s: string, p: nat)
    requires |s| > 3 && p <= |s| - 3
    ensures ThreesFrom(s, p) == ThreesFrom(s[..|s| - 3], p) + "," + s[|s| - 3..]
    decreases |s| - p
  {
    if p == |s| - 3 {
      ThreesLastGroup(s);
    } else {
      ThreesDropGroup(s, p + 1);
      ThreesStep(s, p);
    }
  }

  lemma ThreesLastGroup(s: string)
    requires |s| > 3
    ensures ThreesFrom(s, |s| - 3) == "," + s[|s| - 3..]
  {
    var n := |s|;
    assert ThreesFrom(s, n - 1) == [s[n - 1]];
    assert ThreesFrom(s, n - 2) == [s[n - 2], s[n - 1]];
    assert s[n - 3..] == [s[n - 3], s[n - 2], s[n - 1]];
  }

  lemma ThreesStep(s: string, p: nat)
    requires |s| > 3 && p < |s| - 3
    requires ThreesFrom(s, p + 1) == ThreesFrom(s[..|s| - 3], p + 1) + "," + s[|s| - 3..]
    ensures ThreesFrom(s, p) == ThreesFrom(s[..|s| - 3], p) + "," + s[|s| - 3..]
  {
    var n := |s|;
    var t := s[..n - 3];
    var last := s[n - 3..];
    var head := (if 0 < p && (n - p) % 3 == 0 then "," else "") + [s[p]];
    var tail := ThreesFrom(t, p + 1);
    assert ThreesFrom(t, p) == head + tail by {
      assert (n - p) % 3 == (|t| - p) % 3;
      assert t[p] == s[p];
    }
    calc {
      ThreesFrom(s, p);
      head + ThreesFrom(s, p + 1);
      head + (tail + "," + last);
      { Regroup(head, tail, last); }
      (head + tail) + "," + last;
    }
  }

  lemma Regroup(head: string, tail: string, last: string)
    ensures head + (tail + "," + last) == (head + tail) + "," + last
  {
  }

  /** A digit string cut into groups of three from the right; the first group holds what is left. */
  function Groups(s: string): (groups: seq<string>)
    decreases |s|
  {
    if |s| <= 3 then [s] else Groups(s[..|s| - 3]) + [s[|s| - 3..]]
  }

  lemma {:induction false} GroupsSpec(s: string)
    requires AllDigits(s) && s != []
    ensures |Groups(s)| >= 1
    ensures 1 <= |Groups(s)[0]| <= 3
    ensures forall k :: 1 <= k < |Groups(s)| ==> |Groups(s)[k]| == 3
    ensures forall k :: 0 <= k < |Groups(s)| ==> Groups(s)[k] != [] && ',' !in Groups(s)[k]
    decreases |s|
  {
    if |s| > 3 {
      var t := s[..|s| - 3];
      assert AllDigits(t);
      GroupsSpec(t);
      var last := s[|s| - 3..];
      assert AllDigits(last);
      DigitsHaveNoComma(last);
      assert Groups(s) == Groups(t) + [last];
    } else {
      DigitsHaveNoComma(s);
    }
  }

  /** For a digit string, the separated text is its groups of three joined by ",". */
  lemma {:induction false} CommaSeparatorGroups(s: string)
    requires AllDigits(s) && s != []
    ensures CommaSeparator(s) == Join(Groups(s), ",")
    decreases |s|
  {
    if |s| <= 3 {
      ShortUnchanged(s);
    } else {
      var t := s[..|s| - 3];
      assert AllDigits(t);
      CommaSeparatorGroups(t);
      SeparatedDigits(s, 0);
      SeparatedDigits(t, 0);
      ThreesDropGroup(s, 0);
      GroupsSpec(t);
      JoinAppend(Groups(t), s[|s| - 3..], ",");
    }
  }

  /**
   * The separated digit string splits on "," into a first group of one to three digits and
   * then groups of exactly three, which together are the original digits; no comma leads or trails.
   */
  lemma CommaSeparatorShape(s: string)
    requires AllDigits(s) && s != []
    ensures Split(CommaSeparator(s), ',') == Groups(s)
    ensures 1 <= |Groups(s)[0]| <= 3 && forall k :: 1 <= k < |Groups(s)| ==> |Groups(s)[k]| == 3
    ensures RemoveCommas(CommaSeparator(s)) == s
    ensures CommaSeparator(s)[0] != ',' && CommaSeparator(s)[|CommaSeparator(s)| - 1] != ','
  {
    CommaSeparatorGroups(s);
    GroupsSpec(s);
    SplitJoin(Groups(s), ',');
    DigitsHaveNoComma(s);
    CommaSeparatorRemoveCommas(s);
    var r := CommaSeparator(s);
    assert r == [] + r;
    JoinEnds(Groups(s));
  }

  /** A join of non-empty, comma-free parts neither starts nor ends with ",". */
  lemma {:induction false} JoinEnds(parts: seq<string>)
    requires |parts| >= 1
    requires forall k :: 0 <= k < |parts| ==> parts[k] != [] && ',' !in parts[k]
    ensures Join(parts, ",") != []
    ensures Join(parts, ",")[0] != ',' && Join(parts, ",")[|Join(parts, ",")| - 1] != ','
  {
    if |parts| > 1 {
      JoinEnds(parts[1..]);
      var rest := Join(parts[1..], ",");
      assert Join(parts, ",") == parts[0] + "," + rest;
      assert parts[0][0] in parts[0];
      assert rest[|rest| - 1] == Join(parts, ",")[|Join(parts, ",")| - 1];
    } else {
      assert parts[0][0] in parts[0];
      assert parts[0][|parts[0]| - 1] in parts[0];
    }
  }

  /**
   * Years of life lost this year: the primary-person sum plus the person sum. A sum over
   * no rows arrives as null, which JavaScript's `+` counts as 0.
   */
  function YearsOfLifeLostYtd(primaryPersonSum: Option<nat>, personSum: Option<nat>): (ytd: nat) {
    primaryPersonSum.GetOr(0) + personSum.GetOr(0)
  }

  /** The figure shown in the widget: the total, grouped by thousands. */
  function YearsOfLifeLostHeader(primaryPersonSum: Option<nat>, personSum: Option<nat>): string {
    CommaSeparator(NatToString(YearsOfLifeLostYtd(primaryPersonSum, personSum)))
  }

  /** Reading the widget back, commas removed, gives the sum of the two years-of-life-lost totals. */
  lemma YearsOfLifeLostShown(primary: nat, person: nat)
    ensures RemoveCommas(YearsOfLifeLostHeader(Some(primary), Some(person))) == NatToString(primary + person)
    ensures YearsOfLifeLostYtd(None, Some(person)) == person && YearsOfLifeLostYtd(None, None) == 0
  {
    var total := YearsOfLifeLostYtd(Some(primary), Some(person));
    assert total == primary + person;
    var text := NatToString(total);
    DigitsHaveNoComma(text);
    CommaSeparatorRemoveCommas(text);
  }
}
