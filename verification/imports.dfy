/**
 * The helpers of the CRIS import job: the GraphQL insert mutation built from a
 * template, the crash id at the head of a CSV line, the two hooks the import
 * loop consults, and the run configuration read from the command line.
 */
module ImportHelpers {
  import opened Results
  import opened Strings
  import opened PyValues

  // The insert mutation, cut into pieces short enough to reason about one at a time.

  const MutationHead: string := "\n        mutation "
  const FunctionOpen: string := " {\n          "
  const ObjectsOpen: string := "(\n            objects: {\n            "
  const ObjectsClose: string := "\n            }\n          ){"
  const AffectedRows: string := "\n            affected_rows"
  const MutationClose: string := "\n          }\n        }\n    "

  const NameToken: string := "%NAME%"
  const FunctionToken: string := "%FUNCTION%"
  const FieldsToken: string := "%FIELDS%"

  /** The mutation `name` calling `func` on the object `fields`, selecting `affected_rows`. */
  function Mutation(name: string, func: string, fields: string): string {
    MutationHead + (name + (FunctionOpen + (func + (ObjectsOpen + (fields + (ObjectsClose + (AffectedRows + MutationClose)))))))
  }

  /** The template text, with a placeholder in each of its three slots. */
  const Template: string := Mutation(NameToken, FunctionToken, FieldsToken)

  /** `generate_template`: every `%NAME%`, then every `%FUNCTION%`, then every `%FIELDS%` replaced. */
  function GenerateTemplate(name: string, func: string, fields: string): string {
    PyReplace(PyReplace(PyReplace(Template, NameToken, name), FunctionToken, func), FieldsToken, fields)
  }

  lemma PiecesLackPercent()
    ensures '%' !in MutationHead && '%' !in FunctionOpen && '%' !in ObjectsOpen
    ensures '%' !in ObjectsClose && '%' !in AffectedRows && '%' !in MutationClose
  {
    OpeningPiecesLackPercent();
    ClosingPiecesLackPercent();
  }

  lemma OpeningPiecesLackPercent()
    ensures '%' !in MutationHead && '%' !in FunctionOpen && '%' !in ObjectsOpen
  {
  }

  lemma ClosingPiecesLackPercent()
    ensures '%' !in ObjectsClose && '%' !in AffectedRows && '%' !in MutationClose
  {
  }

  /** The tail after the last slot passes through any replacement of a '%' placeholder. */
  lemma TailUnchanged(pat: string, rep: string)
    requires pat != [] && pat[0] == '%'
    ensures PyReplace(ObjectsClose + (AffectedRows + MutationClose), pat, rep) == ObjectsClose + (AffectedRows + MutationClose)
  {
    PiecesLackPercent();
    PyReplaceSkip(MutationClose, [], pat, rep);
    assert MutationClose + [] == MutationClose;
    PyReplaceSkip(AffectedRows, MutationClose, pat, rep);
    PyReplaceSkip(ObjectsClose, AffectedRows + MutationClose, pat, rep);
  }

  /**
   * A placeholder other than `pat` passes through `replace` unchanged: it differs from
   * `pat` at position `k`, holds '%' only at its ends, and the text after it cannot
   * continue `pat`'s opening '%'.
   */
  lemma SkipToken(tok: string, u: string, pat: string, rep: string, k: nat)
    requires |pat| >= 2 && pat[0] == '%'
    requires |tok| >= 2 && tok[0] == '%' && tok[|tok| - 1] == '%' && '%' !in tok[1..|tok| - 1]
    requires k < |tok| && k < |pat| && tok[k] != pat[k]
    requires u != [] && u[0] != pat[1]
    ensures PyReplace(tok + u, pat, rep) == tok + PyReplace(u, pat, rep)
  {
    var s := tok + u;
    assert |s| >= |pat| ==> s[..|pat|][k] == tok[k];
    assert PyReplace(s, pat, rep) == [s[0]] + PyReplace(s[1..], pat, rep);
    var inner := tok[1..|tok| - 1];
    assert s[1..] == inner + ("%" + u);
    PyReplaceSkip(inner, "%" + u, pat, rep);
    var v := "%" + u;
    assert |v| >= |pat| ==> v[..|pat|][1] == u[0];
    assert PyReplace(v, pat, rep) == "%" + PyReplace(v[1..], pat, rep);
    assert v[1..] == u;
    assert tok == [s[0]] + inner + "%";
  }

  lemma TokensShape()
    ensures '%' !in NameToken[1..|NameToken| - 1]
    ensures '%' !in FunctionToken[1..|FunctionToken| - 1]
    ensures '%' !in FieldsToken[1..|FieldsToken| - 1]
  {
    assert NameToken[1..|NameToken| - 1] == "NAME";
    assert FunctionToken[1..|FunctionToken| - 1] == "FUNCTION";
    assert FieldsToken[1..|FieldsToken| - 1] == "FIELDS";
  }

  lemma FillName(name: string)
    ensures PyReplace(Template, NameToken, name) == Mutation(name, FunctionToken, FieldsToken)
  {
    PiecesLackPercent();
    TokensShape();
    var tail := ObjectsClose + (AffectedRows + MutationClose);
    TailUnchanged(NameToken, name);
    assert tail[0] == '\n';
    SkipToken(FieldsToken, tail, NameToken, name, 1);
    PyReplaceSkip(ObjectsOpen, FieldsToken + tail, NameToken, name);
    assert (ObjectsOpen + (FieldsToken + tail))[0] == '(';
    SkipToken(FunctionToken, ObjectsOpen + (FieldsToken + tail), NameToken, name, 1);
    PyReplaceSkip(FunctionOpen, FunctionToken + (ObjectsOpen + (FieldsToken + tail)), NameToken, name);
    PyReplaceHit(FunctionOpen + (FunctionToken + (ObjectsOpen + (FieldsToken + tail))), NameToken, name);
    PyReplaceSkip(MutationHead, NameToken + (FunctionOpen + (FunctionToken + (ObjectsOpen + (FieldsToken + tail)))), NameToken, name);
  }

  lemma FillFunction(name: string, func: string)
    requires '%' !in name
    ensures PyReplace(Mutation(name, FunctionToken, FieldsToken), FunctionToken, func) == Mutation(name, func, FieldsToken)
  {
    PiecesLackPercent();
    TokensShape();
    var tail := ObjectsClose + (AffectedRows + MutationClose);
    TailUnchanged(FunctionToken, func);
    SkipToken(FieldsToken, tail, FunctionToken, func, 2);
    PyReplaceSkip(ObjectsOpen, FieldsToken + tail, FunctionToken, func);
    PyReplaceHit(ObjectsOpen + (FieldsToken + tail), FunctionToken, func);
    PyReplaceSkip(FunctionOpen, FunctionToken + (ObjectsOpen + (FieldsToken + tail)), FunctionToken, func);
    PyReplaceSkip(name, FunctionOpen + (FunctionToken + (ObjectsOpen + (FieldsToken + tail))), FunctionToken, func);
    PyReplaceSkip(MutationHead, name + (FunctionOpen + (FunctionToken + (ObjectsOpen + (FieldsToken + tail)))), FunctionToken, func);
  }

  lemma FillFields(name: string, func: string, fields: string)
    requires '%' !in name && '%' !in func
    ensures PyReplace(Mutation(name, func, FieldsToken), FieldsToken, fields) == Mutation(name, func, fields)
  {
    PiecesLackPercent();
    var tail := ObjectsClose + (AffectedRows + MutationClose);
    TailUnchanged(FieldsToken, fields);
    PyReplaceHit(tail, FieldsToken, fields);
    PyReplaceSkip(ObjectsOpen, FieldsToken + tail, FieldsToken, fields);
    PyReplaceSkip(func, ObjectsOpen + (FieldsToken + tail), FieldsToken, fields);
    PyReplaceSkip(FunctionOpen, func + (ObjectsOpen + (FieldsToken + tail)), FieldsToken, fields);
    PyReplaceSkip(name, FunctionOpen + (func + (ObjectsOpen + (FieldsToken + tail))), FieldsToken, fields);
    PyReplaceSkip(MutationHead, name + (FunctionOpen + (func + (ObjectsOpen + (FieldsToken + tail)))), FieldsToken, fields);
  }

  /**
   * When neither the mutation name nor the function name holds a '%', the three replacements
   * fill exactly the three slots: the fields land inside `objects: { }` whatever they hold,
   * and the mutation still selects `affected_rows`.
   */
  lemma GenerateTemplateFills(name: string, func: string, fields: string)
    requires '%' !in name && '%' !in func
    ensures GenerateTemplate(name, func, fields) == Mutation(name, func, fields)
  {
    FillName(name);
    FillFunction(name, func);
    FillFields(name, func, fields);
  }

  /** `lowercase_group_match`: the captured key lower-cased, then ":". */
  function LowercaseGroupMatch(group: string): (r: string)
    ensures |r| == |group| + 1 && r[|group|] == ':'
    ensures forall i :: 0 <= i < |group| ==> !('A' <= r[i] <= 'Z')
    ensures forall i :: 0 <= i < |group| ==> (r[i] == group[i] || 'A' <= group[i] <= 'Z')
    ensures forall i :: 0 <= i < |group| ==> r[i] == LowerChar(group[i])
  {
    LowerAscii(group) + ":"
  }

  /** Keys that differ only in the case of their letters are written the same way. */
  lemma LowercaseGroupMatchFolds(group: string)
    ensures LowercaseGroupMatch(LowerAscii(group)) == LowercaseGroupMatch(group)
  {
    assert LowerAscii(LowerAscii(group)) == LowerAscii(group);
  }

  /** `get_crash_id`: the first comma-separated field of the stripped line. */
  function GetCrashId(line: string): string {
    Split(Strip(line), ',')[0]
  }

  /** The crash id is everything before the first comma of the stripped line, or all of it when it has none. */
  lemma GetCrashIdSpec(line: string)
    ensures ',' !in GetCrashId(line)
    ensures |GetCrashId(line)| <= |Strip(line)| && Strip(line)[..|GetCrashId(line)|] == GetCrashId(line)
    ensures |GetCrashId(line)| < |Strip(line)| ==> Strip(line)[|GetCrashId(line)|] == ','
    ensures ',' !in Strip(line) ==> GetCrashId(line) == Strip(line)
  {
    var s := Strip(line);
    var parts := Split(s, ',');
    var id := parts[0];
    if |parts| > 1 {
      assert s == id + "," + Join(parts[1..], ",");
      assert s[|id|] == ',';
      assert s[..|id|] == id;
    } else {
      assert s == id;
    }
  }

  /** A line that already starts with its id and a comma gives that id back. */
  lemma GetCrashIdOfRecord(id: string, rest: string)
    requires id != [] && !IsSpace(id[0]) && ',' !in id
    requires rest != [] && !IsSpace(rest[|rest| - 1])
    ensures GetCrashId(id + "," + rest) == id
  {
    var line := id + "," + rest;
    assert line[0] == id[0] && line[|line| - 1] == rest[|rest| - 1];
    StripKeepsTrimmed(line);
    GetCrashIdSpec(line);
    var r := GetCrashId(line);
    assert line[|id|] == ',';
    assert r == line[..|id|] == id;
  }

  /**
   * `record_exists_hook`. Only crashes are looked up: `crashesFound` is the number of rows
   * the search query returned, or None when running it raised, which counts as "exists".
   * Every other record type is assumed absent so the insert is attempted.
   */
  function RecordExistsHook(recordType: string, crashesFound: Option<nat>): bool {
    if recordType == "crash" then
      match crashesFound
      case None => true
      case Some(n) => n > 0
    else false
  }

  /**
   * `handle_record_error_hook`: true stops the import. A failed crash always stops it;
   * for other records only a response mentioning a constraint violation is passed over.
   */
  function HandleRecordErrorHook(recordType: string, response: PyValue): bool {
    recordType == "crash" || !Contains(PyStr(response), "constraint-violation")
  }

  /**
   * The import's decision for a non-crash record: it is always inserted, and a failed
   * insert is passed over exactly when the response says "constraint-violation"
   * (a duplicate caught by a unique index), which it does whenever that code sits
   * anywhere inside the response.
   */
  lemma NonCrashRecords(recordType: string, crashesFound: Option<nat>, response: PyValue)
    requires recordType != "crash"
    ensures !RecordExistsHook(recordType, crashesFound)
    ensures Holds(response, "constraint-violation") ==> !HandleRecordErrorHook(recordType, response)
    ensures !Contains(PyStr(response), "constraint-violation") ==> HandleRecordErrorHook(recordType, response)
  {
    if Holds(response, "constraint-violation") {
      StrShows(response, "constraint-violation");
    }
  }

  /** A crash is inserted only when the search ran and found nothing, and any failure to insert it stops the import. */
  lemma CrashRecords(crashesFound: Option<nat>, response: PyValue)
    ensures !RecordExistsHook("crash", crashesFound) <==> crashesFound == Some(0)
    ensures HandleRecordErrorHook("crash", response)
  {
  }

  /** Python `int(text)` for decimal text: surrounding whitespace, an optional sign, then digits. */
  function ParseInt(text: string): Option<int> {
    var t := Strip(text);
    if t != [] && (t[0] == '-' || t[0] == '+') then
      if |t| > 1 && AllDigits(t[1..]) then
        var magnitude: int := DigitsValue(t[1..]);
        Some(if t[0] == '-' then -magnitude else magnitude)
      else None
    else if t != [] && AllDigits(t) then Some(DigitsValue(t))
    else None
  }

  /** Reading back the decimal text of a number gives the number. */
  lemma ParseIntRoundTrip(n: int)
    ensures ParseInt(IntToString(n)) == Some(n)
  {
    var s := IntToString(n);
    if n >= 0 {
      assert s[0] != '-' && s[0] != '+' by { assert IsDigit(s[0]); }
      StripKeepsTrimmed(s);
    } else {
      assert s[1..][0] == s[1];
      assert IsDigit(s[|s| - 1]) by { assert s[|s| - 1] == s[1..][|s| - 2]; }
      StripKeepsTrimmed(s);
    }
  }

  /** Text with no digit in it is not a number. */
  lemma ParseIntNeedsDigits(text: string)
    requires forall i :: 0 <= i < |text| ==> !IsDigit(text[i])
    ensures ParseInt(text) == None
  {
    var t := Strip(text);
    StripSpec(text);
    var i, j :| 0 <= i <= j <= |text| && t == text[i..j] && OnlySpace(text[..i]) && OnlySpace(text[j..]);
    if t != [] {
      assert t[0] == text[i];
      assert !AllDigits(t) by { assert !IsDigit(t[0]); }
      if |t| > 1 {
        assert t[1..][0] == text[i + 1];
        assert !AllDigits(t[1..]) by { assert !IsDigit(t[1..][0]); }
      }
    }
  }

  /** One entry of the final file list: the file and how many of its lines to skip (-1: all). */
  datatype FileEntry = FileEntry(file: string, skip: int)

  datatype RunConfig = RunConfig(
    fileDryrun: bool,
    fileType: string,
    fileListRaw: seq<string>,
    skipRowsRaw: seq<string>,
    fileList: seq<FileEntry>)

  /** The skip count for the `i`-th file: "*" is -1, integer text its value, anything else or a missing entry 0. */
  function SkipLines(skipRowsRaw: seq<string>, i: nat): int {
    if i >= |skipRowsRaw| then 0
    else
      var text := if skipRowsRaw[i] == "*" then "-1" else skipRowsRaw[i];
      match ParseInt(text)
      case Some(n) => n
      case None => 0
  }

  lemma SkipLinesSpec(skipRowsRaw: seq<string>, i: nat)
    ensures i >= |skipRowsRaw| ==> SkipLines(skipRowsRaw, i) == 0
    ensures i < |skipRowsRaw| && skipRowsRaw[i] == "*" ==> SkipLines(skipRowsRaw, i) == -1
    ensures forall n :: i < |skipRowsRaw| && skipRowsRaw[i] == IntToString(n) ==> SkipLines(skipRowsRaw, i) == n
    ensures i < |skipRowsRaw| && skipRowsRaw[i] == "" ==> SkipLines(skipRowsRaw, i) == 0
  {
    if i < |skipRowsRaw| {
      if skipRowsRaw[i] == "*" {
        ParseIntRoundTrip(-1);
      }
      forall n | skipRowsRaw[i] == IntToString(n) ensures SkipLines(skipRowsRaw, i) == n {
        ParseIntRoundTrip(n);
        assert IntToString(n) != "*" by {
          if n >= 0 { assert IsDigit(IntToString(n)[0]); } else { assert IntToString(n)[0] == '-'; }
        }
      }
      if skipRowsRaw[i] == "" {
        ParseIntNeedsDigits("");
      }
    }
  }

  /**
   * `generate_run_config`, with `sys.argv` as `argv` and the files the glob pattern for the
   * type matched as `filesFound`. None is the forced exit when no type was given.
   */
  method GenerateRunConfig(argv: seq<string>, filesFound: seq<string>) returns (config: Option<RunConfig>)
    ensures config.None? <==> |argv| < 2
    ensures config.Some? ==> config.value.fileType == LowerAscii(argv[1])
    ensures config.Some? ==> (config.value.fileDryrun <==> "--dryrun" in argv)
    ensures config.Some? && |argv| > 2 ==>
      Join(config.value.skipRowsRaw, ",") == LowerAscii(argv[2])
      && forall k :: 0 <= k < |config.value.skipRowsRaw| ==> ',' !in config.value.skipRowsRaw[k]
    ensures config.Some? && |argv| <= 2 ==> config.value.skipRowsRaw == []
    ensures config.Some? ==> config.value.fileListRaw == filesFound && |config.value.fileList| == |filesFound|
    ensures config.Some? ==> forall k :: 0 <= k < |filesFound| ==>
      config.value.fileList[k] == FileEntry(filesFound[k], SkipLines(config.value.skipRowsRaw, k))
  {
    if |argv| < 2 {
      return None;
    }
    var fileType := LowerAscii(argv[1]);
    var skipRowsRaw := if |argv| > 2 then Split(LowerAscii(argv[2]), ',') else [];
    var fileDryrun := "--dryrun" in argv;
    var finalFileList: seq<FileEntry> := [];
    var i := 0;
    while i < |filesFound|
      invariant 0 <= i <= |filesFound|
      invariant |finalFileList| == i
      invariant forall k :: 0 <= k < i ==> finalFileList[k] == FileEntry(filesFound[k], SkipLines(skipRowsRaw, k))
    {
      var skipLinesValue := 0;
      if i < |skipRowsRaw| {
        var text := skipRowsRaw[i];
        if text == "*" {
          text := "-1";
        }
        var parsed := ParseInt(text);
        if parsed.Some? {
          skipLinesValue := parsed.value;
        }
      }
      finalFileList := finalFileList + [FileEntry(filesFound[i], skipLinesValue)];
      i := i + 1;
    }
    config := Some(RunConfig(fileDryrun, fileType, filesFound, skipRowsRaw, finalFileList));
  }
}
