/**
 * The string operations the JavaScript and Python sources lean on, written out:
 * decimal rendering, joining, first-occurrence search, JavaScript's
 * `String.prototype.replace` with a string pattern, Python's `str.replace`,
 * `str.split(sep)`, `str.split()`, `str.strip()` and `str.lower()` (ASCII letters).
 */
module Strings {
  import opened Results

  predicate IsDigit(c: char) {
    '0' <= c <= '9'
  }

  predicate AllDigits(s: string) {
    forall i :: 0 <= i < |s| ==> IsDigit(s[i])
  }

  function DigitChar(d: nat): (c: char)
    requires d < 10
    ensures IsDigit(c) && c as int - '0' as int == d
  {
    ['0', '1', '2', '3', '4', '5', '6', '7', '8', '9'][d]
  }

  /** The value of a string of decimal digits (the empty string reads as 0). */
  function DigitsValue(s: string): nat
    requires AllDigits(s)
  {
    if s == [] then 0
    else DigitsValue(s[..|s| - 1]) * 10 + (s[|s| - 1] as int - '0' as int)
  }

  /** Decimal text of a natural number, as JavaScript's and Python's number-to-text conversions give it. */
  function NatToString(n: nat): (s: string)
    ensures |s| >= 1 && AllDigits(s)
    ensures s[0] == '0' ==> n == 0 && s == "0"
    ensures DigitsValue(s) == n
  {
    if n < 10 then [DigitChar(n)]
    else
      var prefix := NatToString(n / 10);
      var s := prefix + [DigitChar(n % 10)];
      assert s[..|s| - 1] == prefix;
      s
  }

  /** The decimal text of `n`, zero-padded on the left to `width` digits. */
  function PadDigits(n: nat, width: nat): (s: string)
    ensures AllDigits(s) && DigitsValue(s) == n
    ensures |s| == if |NatToString(n)| >= width then |NatToString(n)| else width
  {
    var digits := NatToString(n);
    if |digits| >= width then digits else ZeroPad(width - |digits|, digits)
  }

  /** `digits` with `count` zeros in front. */
  function ZeroPad(count: nat, digits: string): (s: string)
    requires AllDigits(digits)
    ensures AllDigits(s) && DigitsValue(s) == DigitsValue(digits) && |s| == count + |digits|
  {
    if count == 0 then digits
    else
      var rest := ZeroPad(count - 1, digits);
      LeadingZero(rest);
      "0" + rest
  }

  /** A leading zero keeps the value of a digit string. */
  lemma {:induction false} LeadingZero(s: string)
    requires AllDigits(s)
    ensures AllDigits("0" + s) && DigitsValue("0" + s) == DigitsValue(s)
    decreases |s|
  {
    var z := "0" + s;
    if s != [] {
      assert z[..|z| - 1] == "0" + s[..|s| - 1];
      assert AllDigits(s[..|s| - 1]);
      LeadingZero(s[..|s| - 1]);
    }
  }

  /** Decimal text of an integer, with a leading '-' for negatives. */
  function IntToString(i: int): (s: string)
    ensures |s| >= 1
    ensures i >= 0 ==> s == NatToString(i)
    ensures i < 0 ==> s[0] == '-' && s[1..] == NatToString(-i)
  {
    if i >= 0 then NatToString(i) else "-" + NatToString(-i)
  }

  /** The parts, with `sep` between consecutive parts (JavaScript `Array.join`, Python `str.join`). */
  function Join(parts: seq<string>, sep: string): (s: string)
    ensures parts == [] ==> s == ""
    ensures |parts| == 1 ==> s == parts[0]
  {
    if parts == [] then ""
    else if |parts| == 1 then parts[0]
    else parts[0] + sep + Join(parts[1..], sep)
  }

  lemma {:induction false} JoinAppend(parts: seq<string>, last: string, sep: string)
    requires parts != []
    ensures Join(parts + [last], sep) == Join(parts, sep) + sep + last
  {
    if |parts| == 1 {
      assert parts + [last] == [parts[0], last];
      assert ([parts[0], last])[1..] == [last];
    } else {
      assert (parts + [last])[1..] == parts[1..] + [last];
      JoinAppend(parts[1..], last, sep);
    }
  }

  predicate OccursAt(s: string, pat: string, i: nat) {
    i + |pat| <= |s| && s[i..i + |pat|] == pat
  }

  /** True when `pat` occurs somewhere in `s` (Python `pat in s`, JavaScript `s.match` of a literal). */
  predicate Contains(s: string, pat: string) {
    exists i: nat | i <= |s| :: OccursAt(s, pat, i)
  }

  function IndexFrom(s: string, pat: string, from: nat): (r: Option<nat>)
    requires from <= |s| + 1
    decreases |s| + 1 - from
    ensures r.Some? ==> from <= r.value && OccursAt(s, pat, r.value)
    ensures r.Some? ==> forall j: nat :: from <= j < r.value ==> !OccursAt(s, pat, j)
    ensures r.None? ==> forall j: nat :: from <= j ==> !OccursAt(s, pat, j)
  {
    if from > |s| then None
    else if OccursAt(s, pat, from) then Some(from)
    else IndexFrom(s, pat, from + 1)
  }

  /** The position of the first occurrence of `pat` in `s` (JavaScript `indexOf`). */
  function IndexOf(s: string, pat: string): (r: Option<nat>)
    ensures r.Some? ==> OccursAt(s, pat, r.value)
    ensures r.Some? ==> forall j: nat :: j < r.value ==> !OccursAt(s, pat, j)
    ensures r.None? <==> !Contains(s, pat)
  {
    IndexFrom(s, pat, 0)
  }

  /**
   * The replacement text that JavaScript's `replace` inserts for a string pattern
   * (GetSubstitution in ECMAScript, section 22.1.3.19.1, with no capture groups):
   * "$$" is "$", "$&" the matched text, "$`" the text before the match, "$'" the text after it.
   */
  function Substitution(rep: string, matched: string, before: string, after: string): string
  {
    if rep == [] then []
    else if rep[0] == '$' && |rep| >= 2 && rep[1] == '$' then "$" + Substitution(rep[2..], matched, before, after)
    else if rep[0] == '$' && |rep| >= 2 && rep[1] == '&' then matched + Substitution(rep[2..], matched, before, after)
    else if rep[0] == '$' && |rep| >= 2 && rep[1] == '`' then before + Substitution(rep[2..], matched, before, after)
    else if rep[0] == '$' && |rep| >= 2 && rep[1] == '\'' then after + Substitution(rep[2..], matched, before, after)
    else [rep[0]] + Substitution(rep[1..], matched, before, after)
  }

  lemma {:induction false} SubstitutionWithoutDollar(rep: string, matched: string, before: string, after: string)
    requires '$' !in rep
    ensures Substitution(rep, matched, before, after) == rep
  {
    if rep != [] {
      SubstitutionWithoutDollar(rep[1..], matched, before, after);
    }
  }

  /** JavaScript `s.replace(pat, rep)` with a string pattern: only the first occurrence is replaced. */
  function JsReplace(s: string, pat: string, rep: string): (r: string)
    ensures !Contains(s, pat) ==> r == s
  {
    match IndexOf(s, pat)
    case None => s
    case Some(i) => s[..i] + Substitution(rep, pat, s[..i], s[i + |pat|..]) + s[i + |pat|..]
  }

  /** When `pat` first occurs right after `a` and `rep` holds no '$', replacing it splices `rep` in its place. */
  lemma JsReplaceAt(a: string, pat: string, b: string, rep: string)
    requires forall j: nat :: j < |a| ==> !OccursAt(a + pat + b, pat, j)
    requires '$' !in rep
    ensures JsReplace(a + pat + b, pat, rep) == a + rep + b
  {
    var s := a + pat + b;
    assert OccursAt(s, pat, |a|) by {
      assert s[|a|..|a| + |pat|] == pat;
    }
    var i := IndexOf(s, pat);
    assert i == Some(|a|);
    SubstitutionWithoutDollar(rep, pat, s[..|a|], s[|a| + |pat|..]);
    assert s[..|a|] == a;
    assert s[|a| + |pat|..] == b;
  }

  /** When the text before `pat` never holds its first character, `replace` splices `rep` there. */
  lemma JsReplaceFront(a: string, pat: string, b: string, rep: string)
    requires pat != [] && pat[0] !in a && '$' !in rep
    ensures JsReplace(a + pat + b, pat, rep) == a + rep + b
  {
    var s := a + pat + b;
    forall j: nat | j < |a| ensures !OccursAt(s, pat, j) {
      assert s[j] == a[j];
      assert j + |pat| <= |s| ==> s[j..j + |pat|][0] == s[j];
    }
    JsReplaceAt(a, pat, b, rep);
  }

  /** The decimal text of an integer holds digits and at most a leading '-'. */
  lemma IntToStringChars(i: int, c: char)
    requires c in IntToString(i)
    ensures IsDigit(c) || c == '-'
  {
    var s := IntToString(i);
    var k :| 0 <= k < |s| && s[k] == c;
    if i < 0 && k > 0 {
      assert s[k] == s[1..][k - 1];
    }
  }

  /** Python `s.replace(old, new)`: every non-overlapping occurrence, scanned left to right. */
  function PyReplace(s: string, pat: string, rep: string): string
    decreases |s|
  {
    if pat == [] then
      (if s == [] then rep else rep + [s[0]] + PyReplace(s[1..], pat, rep))
    else if |s| >= |pat| && s[..|pat|] == pat then rep + PyReplace(s[|pat|..], pat, rep)
    else if s == [] then []
    else [s[0]] + PyReplace(s[1..], pat, rep)
  }

  /** A prefix that does not hold the first character of the pattern passes through `replace` unchanged. */
  lemma {:induction false} PyReplaceSkip(a: string, t: string, pat: string, rep: string)
    requires pat != [] && pat[0] !in a
    ensures PyReplace(a + t, pat, rep) == a + PyReplace(t, pat, rep)
  {
    if a != [] {
      var s := a + t;
      assert s[0] == a[0] != pat[0];
      assert |s| >= |pat| ==> s[..|pat|][0] == s[0];
      assert s[1..] == a[1..] + t;
      assert PyReplace(s, pat, rep) == [a[0]] + PyReplace(a[1..] + t, pat, rep);
      PyReplaceSkip(a[1..], t, pat, rep);
      assert [a[0]] + a[1..] == a;
    } else {
      assert a + t == t;
    }
  }

  /** An occurrence at the front is replaced and the scan resumes after it. */
  lemma PyReplaceHit(t: string, pat: string, rep: string)
    requires pat != []
    ensures PyReplace(pat + t, pat, rep) == rep + PyReplace(t, pat, rep)
  {
    assert (pat + t)[..|pat|] == pat;
    assert (pat + t)[|pat|..] == t;
  }

  /** Replacing one character by a text that does not hold it leaves no occurrence of it. */
  lemma {:induction false} PyReplaceCharRemoves(s: string, c: char, rep: string)
    requires c !in rep
    ensures c !in PyReplace(s, [c], rep)
  {
    if s != [] {
      PyReplaceCharRemoves(s[1..], c, rep);
      if s[..1] == [c] {
        assert PyReplace(s, [c], rep) == rep + PyReplace(s[1..], [c], rep);
      } else {
        assert s[0] != c;
        assert PyReplace(s, [c], rep) == [s[0]] + PyReplace(s[1..], [c], rep);
      }
    }
  }

  /** Replacing never introduces a character that neither the input nor the replacement holds. */
  lemma {:induction false} PyReplaceKeepsAbsent(s: string, pat: string, rep: string, d: char)
    requires d !in s && d !in rep
    ensures d !in PyReplace(s, pat, rep)
    decreases |s|
  {
    if pat == [] {
      if s != [] { PyReplaceKeepsAbsent(s[1..], pat, rep, d); }
    } else if |s| >= |pat| && s[..|pat|] == pat {
      PyReplaceKeepsAbsent(s[|pat|..], pat, rep, d);
    } else if s != [] {
      PyReplaceKeepsAbsent(s[1..], pat, rep, d);
    }
  }

  /** A text found inside `s` is found inside anything built around `s`. */
  lemma ContainsWithin(a: string, s: string, b: string, x: string)
    requires Contains(s, x)
    ensures Contains(a + s + b, x)
  {
    var i: nat :| i <= |s| && OccursAt(s, x, i);
    assert (a + s + b)[|a| + i..|a| + i + |x|] == s[i..i + |x|];
    assert OccursAt(a + s + b, x, |a| + i);
  }

  /** A text found inside one part is found inside the parts joined. */
  lemma {:induction false} JoinContains(parts: seq<string>, sep: string, k: nat, x: string)
    requires k < |parts| && Contains(parts[k], x)
    ensures Contains(Join(parts, sep), x)
  {
    if |parts| > 1 {
      if k == 0 {
        ContainsWithin([], parts[0], sep + Join(parts[1..], sep), x);
        assert [] + parts[0] + (sep + Join(parts[1..], sep)) == Join(parts, sep);
      } else {
        assert parts[1..][k - 1] == parts[k];
        JoinContains(parts[1..], sep, k - 1, x);
        ContainsWithin(parts[0] + sep, Join(parts[1..], sep), [], x);
        assert parts[0] + sep + Join(parts[1..], sep) + [] == Join(parts, sep);
      }
    }
  }

  /** Python `s.split(sep)` for a one-character separator. */
  function Split(s: string, sep: char): (parts: seq<string>)
    ensures |parts| >= 1
    ensures forall i :: 0 <= i < |parts| ==> sep !in parts[i]
    ensures Join(parts, [sep]) == s
  {
    if s == [] then [""]
    else
      var rest := Split(s[1..], sep);
      if s[0] == sep then
        assert Join([""] + rest, [sep]) == [sep] + Join(rest, [sep]) by {
          assert ([""] + rest)[1..] == rest;
        }
        [""] + rest
      else
        var parts := [[s[0]] + rest[0]] + rest[1..];
        assert Join(parts, [sep]) == [s[0]] + Join(rest, [sep]) by {
          if |rest| > 1 {
            assert parts[1..] == rest[1..];
          }
        }
        assert [s[0]] + s[1..] == s;
        parts
  }

  /** Splitting a joined text on a separator that no part holds gives the parts back. */
  lemma {:induction false} SplitJoin(parts: seq<string>, sep: char)
    requires |parts| >= 1
    requires forall i :: 0 <= i < |parts| ==> sep !in parts[i]
    ensures Split(Join(parts, [sep]), sep) == parts
    decreases |Join(parts, [sep])|
  {
    var s := Join(parts, [sep]);
    if parts[0] == [] {
      if |parts| > 1 {
        assert s == [sep] + Join(parts[1..], [sep]);
        assert s[1..] == Join(parts[1..], [sep]);
        SplitJoin(parts[1..], sep);
        assert parts == [""] + parts[1..];
      }
    } else {
      var c, w := parts[0][0], parts[0][1..];
      var shorter := [w] + parts[1..];
      assert shorter[1..] == parts[1..];
      assert parts[0] == [c] + w;
      assert c == parts[0][0] && c != sep;
      if |parts| > 1 {
        assert s == [c] + (w + [sep] + Join(parts[1..], [sep]));
      }
      assert s == [c] + Join(shorter, [sep]);
      assert s[1..] == Join(shorter, [sep]);
      forall i | 0 <= i < |shorter| ensures sep !in shorter[i] {
        if i == 0 {
          assert forall x :: x in w ==> x in parts[0];
        } else {
          assert shorter[i] == parts[i];
        }
      }
      SplitJoin(shorter, sep);
      assert parts == [[c] + shorter[0]] + shorter[1..];
    }
  }

  /** The characters Python's `str.split()` and `str.strip()` treat as whitespace. */
  predicate IsSpace(c: char) {
    ('\U{9}' <= c <= '\U{D}') || ('\U{1C}' <= c <= ' ') || c == '\U{85}' || c == '\U{A0}'
    || c == '\U{1680}' || ('\U{2000}' <= c <= '\U{200A}') || c == '\U{2028}' || c == '\U{2029}'
    || c == '\U{202F}' || c == '\U{205F}' || c == '\U{3000}'
  }

  predicate NoSpace(s: string) {
    forall i :: 0 <= i < |s| ==> !IsSpace(s[i])
  }

  predicate OnlySpace(s: string) {
    forall i :: 0 <= i < |s| ==> IsSpace(s[i])
  }

  /** Python `s.split()`: the maximal runs of non-whitespace characters, in order. */
  function SplitWhitespace(s: string): (words: seq<string>)
    ensures forall i :: 0 <= i < |words| ==> words[i] != [] && NoSpace(words[i])
    ensures words == [] <==> OnlySpace(s)
    ensures s != [] && !IsSpace(s[0]) ==> words != [] && words[0][0] == s[0]
  {
    if s == [] then []
    else
      var rest := SplitWhitespace(s[1..]);
      if IsSpace(s[0]) then
        assert OnlySpace(s) <==> OnlySpace(s[1..]) by {
          if OnlySpace(s[1..]) {
            forall i | 0 <= i < |s| ensures IsSpace(s[i]) {
              if i > 0 { assert s[i] == s[1..][i - 1]; }
            }
          }
        }
        rest
      else if |s| > 1 && !IsSpace(s[1]) then
        [[s[0]] + rest[0]] + rest[1..]
      else
        [[s[0]]] + rest
  }

  /** A word followed by whitespace (or nothing) comes out of `split()` as the first word. */
  lemma {:induction false} SplitWhitespaceWord(w: string, rest: string)
    requires w != [] && NoSpace(w)
    requires rest == [] || IsSpace(rest[0])
    ensures SplitWhitespace(w + rest) == [w] + SplitWhitespace(rest)
  {
    var s := w + rest;
    assert s[1..] == w[1..] + rest;
    assert !IsSpace(s[0]);
    if |w| > 1 {
      assert NoSpace(w[1..]) by {
        forall i | 0 <= i < |w[1..]| ensures !IsSpace(w[1..][i]) { assert w[1..][i] == w[i + 1]; }
      }
      SplitWhitespaceWord(w[1..], rest);
      assert s[1] == w[1];
      assert [w[0]] + w[1..] == w;
    } else {
      assert w == [s[0]];
      assert s[1..] == rest;
    }
  }

  /** `" ".join(words).split()` gives the words back when none is empty or holds whitespace. */
  lemma {:induction false} SplitWhitespaceJoin(words: seq<string>)
    requires forall k :: 0 <= k < |words| ==> words[k] != [] && NoSpace(words[k])
    ensures SplitWhitespace(Join(words, " ")) == words
  {
    if |words| == 1 {
      SplitWhitespaceWord(words[0], []);
      assert words[0] + [] == words[0];
    } else if |words| > 1 {
      var tail := Join(words[1..], " ");
      SplitWhitespaceJoin(words[1..]);
      SplitWhitespaceWord(words[0], " " + tail);
      assert words[0] + " " + tail == words[0] + (" " + tail);
      assert (" " + tail)[1..] == tail;
      assert [words[0]] + words[1..] == words;
    }
  }

  /** Python `s.strip()`: whitespace removed from both ends. */
  function Strip(s: string): string {
    StripEnd(StripStart(s))
  }

  function StripStart(s: string): string {
    if s != [] && IsSpace(s[0]) then StripStart(s[1..]) else s
  }

  function StripEnd(s: string): string {
    if s != [] && IsSpace(s[|s| - 1]) then StripEnd(s[..|s| - 1]) else s
  }

  /** `lstrip` cuts a run of whitespace off the front and stops at the first other character. */
  lemma {:induction false} StripStartSpec(s: string)
    ensures |StripStart(s)| <= |s| && StripStart(s) == s[|s| - |StripStart(s)|..]
    ensures forall k :: 0 <= k < |s| - |StripStart(s)| ==> IsSpace(s[k])
    ensures StripStart(s) == [] || !IsSpace(StripStart(s)[0])
  {
    if s != [] && IsSpace(s[0]) {
      var t := s[1..];
      StripStartSpec(t);
      assert t[|t| - |StripStart(t)|..] == s[|s| - |StripStart(t)|..];
      forall k | 0 < k < |s| - |StripStart(s)| ensures IsSpace(s[k]) {
        assert s[k] == t[k - 1];
      }
    }
  }

  /** `rstrip` cuts a run of whitespace off the end and stops at the last other character. */
  lemma {:induction false} StripEndSpec(s: string)
    ensures |StripEnd(s)| <= |s| && StripEnd(s) == s[..|StripEnd(s)|]
    ensures forall k :: |StripEnd(s)| <= k < |s| ==> IsSpace(s[k])
    ensures StripEnd(s) == [] || !IsSpace(StripEnd(s)[|StripEnd(s)| - 1])
  {
    if s != [] && IsSpace(s[|s| - 1]) {
      var t := s[..|s| - 1];
      StripEndSpec(t);
      assert t[..|StripEnd(t)|] == s[..|StripEnd(t)|];
      forall k | |StripEnd(s)| <= k < |t| ensures IsSpace(s[k]) {
        assert s[k] == t[k];
      }
    }
  }

  /** What `strip` keeps is a slice of the text, with only whitespace cut on either side. */
  lemma StripSpec(s: string)
    ensures Strip(s) == [] || (!IsSpace(Strip(s)[0]) && !IsSpace(Strip(s)[|Strip(s)| - 1]))
    ensures exists i, j :: 0 <= i <= j <= |s| && Strip(s) == s[i..j] && OnlySpace(s[..i]) && OnlySpace(s[j..])
  {
    var t := StripStart(s);
    var r := StripEnd(t);
    StripStartSpec(s);
    StripEndSpec(t);
    var i := |s| - |t|;
    var j := i + |r|;
    assert r == s[i..j];
    assert OnlySpace(s[..i]) by {
      forall k | 0 <= k < i ensures IsSpace(s[..i][k]) { assert s[..i][k] == s[k]; }
    }
    assert OnlySpace(s[j..]) by {
      forall k | 0 <= k < |s| - j ensures IsSpace(s[j..][k]) { assert s[j..][k] == t[|r| + k]; }
    }
    if r != [] {
      assert r[0] == t[0];
    }
  }

  /** Stripping a text that neither starts nor ends with whitespace leaves it as it is. */
  lemma StripKeepsTrimmed(s: string)
    requires s != [] && !IsSpace(s[0]) && !IsSpace(s[|s| - 1])
    ensures Strip(s) == s
  {
  }

  function LowerChar(c: char): char {
    if 'A' <= c <= 'Z' then (c as int - 'A' as int + 'a' as int) as char else c
  }

  /** Lower-casing of the ASCII letters; every other character is kept. */
  function LowerAscii(s: string): (r: string)
    ensures |r| == |s|
    ensures forall i :: 0 <= i < |s| ==> r[i] == LowerChar(s[i])
  {
    if s == [] then [] else [LowerChar(s[0])] + LowerAscii(s[1..])
  }
}
