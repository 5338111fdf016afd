/**
 The companion's CSV report (`convertDataToString` in
 HeartRateApp/ViewController.swift): a metadata block with the user's age
 and gender, the fixed column-header line, then the lines received from the
 watch exactly as they arrived. `ParseReport` is the reader that takes a
 report apart again; the round-trip lemma ties the two together.
 */
module Report {
  import opened Options
  import opened Text

  /** First line of the metadata block. */
  const MetaTitle: string := "Age, Gender\n"

  /** The eight column names; each after the first keeps the blank that follows the comma. */
  const ColumnNames: seq<string> := [
    "Exercise", " Heart Rate",
    " X Acceleration", " Y Acceleration", " Z Acceleration",
    " X Rotation Rate", " Y Rotation Rate", " Z Rotation Rate"
  ]

  /**
   The column-header line of the report, spelled out piece by piece, column
   name by column name: the names separated by commas and closed by one line
   break, nested the way `Join` unfolds so that `ColumnHeaderIsJoin` follows
   step by step.
   */
  const ColumnHeader: string :=
    "Exercise" + "," + (" Heart Rate" + "," + (" X Acceleration" + "," + (" Y Acceleration" + "," +
    (" Z Acceleration" + "," + (" X Rotation Rate" + "," + (" Y Rotation Rate" + "," + " Z Rotation Rate")))))) + "\n"

  /** Attachment metadata of the mailed report. */
  const MimeType: string := "text/csv"
  const FileName: string := "Sample.csv"

  /** The two metadata lines: the title and `age,gender`. */
  function MetaBlock(age: int, gender: string): (block: string)
  {
    MetaTitle + Decimal(age) + "," + gender + "\n"
  }

  /** The whole report for the given metadata and received lines. */
  function BuildReport(age: int, gender: string, data: seq<string>): (csv: string)
  {
    MetaBlock(age, gender) + ColumnHeader + Concat(data)
  }

  /**
   The imperative build: the buffer is emptied first and then appended to,
   header by header and line by line. Whatever `buffer` held before is
   discarded, so the result depends on age, gender and data only.
   */
  method ConvertDataToString(buffer: string, age: int, gender: string, data: seq<string>)
    returns (csv: string)
    ensures csv == BuildReport(age, gender, data)
  {
    // The old buffer contents are discarded before rebuilding.
    csv := "";
    csv := csv + MetaBlock(age, gender);
    csv := csv + ColumnHeader;
    assert data[..0] == [];
    for i := 0 to |data|
      invariant csv == BuildReport(age, gender, data[..i])
    {
      ReportAppendLine(age, gender, data[..i], data[i]);
      assert data[..i + 1] == data[..i] + [data[i]];
      csv := csv + data[i];
    }
    assert data[..|data|] == data;
  }

  /** What a report is read back into: its metadata and the data lines that follow the header. */
  datatype Parsed = Parsed(age: int, gender: string, body: string)

  /** The metadata values of the `age,gender` line, with the text after that line. */
  datatype MetaValues = MetaValues(age: int, gender: string, rest: string)

  /**
   Reads the metadata values: the age up to the first comma, then the gender
   up to the next line break; returns them with the text that follows.
   */
  function ParseMetaValues(s: string): (r: Option<MetaValues>)
  {
    match IndexOf(s, ',')
    case None => None
    case Some(comma) =>
      match ParseDecimal(s[..comma])
      case None => None
      case Some(age) =>
        var afterAge := s[comma + 1..];
        match IndexOf(afterAge, '\n')
        case None => None
        case Some(eol) => Some(MetaValues(age, afterAge[..eol], afterAge[eol + 1..]))
  }

  /**
   Reads a report laid out with the given column-header line: the title
   line, the metadata values, the header line, and the rest as body.
   */
  function ParseLayout(csv: string, header: string): (r: Option<Parsed>)
  {
    if !StartsWith(csv, MetaTitle) then None
    else match ParseMetaValues(csv[|MetaTitle|..])
      case None => None
      case Some(meta) =>
        if !StartsWith(meta.rest, header) then None
        else Some(Parsed(meta.age, meta.gender, meta.rest[|header|..]))
  }

  /** Reads a report as `BuildReport` lays it out. */
  function ParseReport(csv: string): (r: Option<Parsed>)
  {
    ParseLayout(csv, ColumnHeader)
  }

  lemma MetaValuesRoundTrip(age: int, gender: string, tail: string)
    requires '\n' !in gender
    ensures ParseMetaValues(Decimal(age) + "," + gender + "\n" + tail) == Some(MetaValues(age, gender, tail))
  {
    var digits := Decimal(age);
    var s := digits + "," + gender + "\n" + tail;
    assert s == digits + [','] + (gender + ['\n'] + tail);
    DecimalPlain(age);
    IndexOfFirst(digits, ',', gender + ['\n'] + tail);
    assert s[..|digits|] == digits;
    DecimalRoundTrip(age);
    var afterAge := s[|digits| + 1..];
    assert afterAge == gender + ['\n'] + tail;
    IndexOfFirst(gender, '\n', tail);
    assert afterAge[..|gender|] == gender;
    assert afterAge[|gender| + 1..] == tail;
  }

  lemma LayoutRoundTrip(age: int, gender: string, header: string, body: string)
    requires '\n' !in gender
    ensures ParseLayout(MetaBlock(age, gender) + header + body, header) == Some(Parsed(age, gender, body))
  {
    var tail := header + body;
    var values := Decimal(age) + "," + gender + "\n" + tail;
    assert MetaBlock(age, gender) + header + body == MetaTitle + values;
    StartsWithAppend(MetaTitle, values);
    MetaValuesRoundTrip(age, gender, tail);
    StartsWithAppend(header, body);
  }

  /**
   Reading a report back recovers its age, its gender and the concatenated
   data lines, whenever the gender holds no line break.
   */
  lemma ReportRoundTrip(age: int, gender: string, data: seq<string>)
    requires '\n' !in gender
    ensures ParseReport(BuildReport(age, gender, data)) == Some(Parsed(age, gender, Concat(data)))
  {
    LayoutRoundTrip(age, gender, ColumnHeader, Concat(data));
  }

  /** The header line is the eight column names joined by commas, plus the line break. */
  lemma ColumnHeaderIsJoin()
    ensures ColumnHeader == Join(ColumnNames, ',') + "\n"
  {
    var n := ColumnNames;
    JoinCons(n[6], [n[7]], ',');
    JoinCons(n[5], n[6..], ',');
    JoinCons(n[4], n[5..], ',');
    JoinCons(n[3], n[4..], ',');
    JoinCons(n[2], n[3..], ',');
    JoinCons(n[1], n[2..], ',');
    JoinCons(n[0], n[1..], ',');
    assert [n[0]] + n[1..] == n;
  }

  /** The header line opens with the exercise and heart-rate columns. */
  lemma ColumnHeaderPrefix()
    ensures StartsWith(ColumnHeader, "Exercise, Heart Rate")
  {
    assert ColumnHeader[..20] == "Exercise" + "," + " Heart Rate";
  }

  /** Without its line break, the header line splits on commas into exactly the eight names. */
  lemma ColumnHeaderColumns()
    ensures Split(ColumnHeader[..|ColumnHeader| - 1], ',') == ColumnNames
    ensures |Split(ColumnHeader[..|ColumnHeader| - 1], ',')| == 8
  {
    ColumnHeaderIsJoin();
    var names := Join(ColumnNames, ',');
    DropLast(names, '\n');
    ColumnNamesPlain();
    SplitJoin(ColumnNames, ',');
  }

  /** The header line ends with a line break and holds no other. */
  lemma ColumnHeaderLineBreak()
    ensures ColumnHeader[|ColumnHeader| - 1] == '\n'
    ensures CountChar(ColumnHeader, '\n') == 1
  {
    ColumnHeaderIsJoin();
    var names := Join(ColumnNames, ',');
    DropLast(names, '\n');
    ColumnNamesPlain();
    JoinAvoids(ColumnNames, ',', '\n');
    CountCharZero(names, '\n');
    CountCharAppend(names, "\n", '\n');
  }

  /** Eight names, none holding a comma or a line break. */
  lemma ColumnNamesPlain()
    ensures |ColumnNames| == 8
    ensures forall i :: 0 <= i < |ColumnNames| ==> ',' !in ColumnNames[i] && '\n' !in ColumnNames[i]
  {
  }

  /** Receiving one more line appends exactly that line to the report, with no separator. */
  lemma ReportAppendLine(age: int, gender: string, data: seq<string>, line: string)
    ensures BuildReport(age, gender, data + [line]) == BuildReport(age, gender, data) + line
  {
    ConcatSnoc(data, line);
  }

  /** With no data the report is the metadata block and header line alone: three lines. */
  lemma ReportNoData(age: int, gender: string)
    requires '\n' !in gender
    ensures BuildReport(age, gender, []) == MetaBlock(age, gender) + ColumnHeader
    ensures CountChar(BuildReport(age, gender, []), '\n') == 3
    ensures BuildReport(age, gender, [])[|BuildReport(age, gender, [])| - 1] == '\n'
  {
    MetaBlockLines(age, gender);
    ColumnHeaderLineBreak();
    CountCharAppend(MetaBlock(age, gender), ColumnHeader, '\n');
  }

  /** The metadata block is two lines. */
  lemma MetaBlockLines(age: int, gender: string)
    requires '\n' !in gender
    ensures CountChar(MetaBlock(age, gender), '\n') == 2
  {
    var digits := Decimal(age);
    DecimalPlain(age);
    CountCharZero(digits, '\n');
    CountCharZero(gender, '\n');
    CountCharAppend(MetaTitle, digits, '\n');
    CountCharAppend(MetaTitle + digits, ",", '\n');
    CountCharAppend(MetaTitle + digits + ",", gender, '\n');
    CountCharAppend(MetaTitle + digits + "," + gender, "\n", '\n');
  }

  /**
   Line `i` of the data stands verbatim right after the header and the
   lines received before it.
   */
  lemma ReportLineAt(age: int, gender: string, data: seq<string>, i: nat)
    requires i < |data|
    ensures var start := |MetaBlock(age, gender) + ColumnHeader| + |Concat(data[..i])|;
      start + |data[i]| <= |BuildReport(age, gender, data)| &&
      BuildReport(age, gender, data)[start..start + |data[i]|] == data[i]
  {
    var head := MetaBlock(age, gender) + ColumnHeader;
    assert data == data[..i] + [data[i]] + data[i + 1..];
    ConcatAppend(data[..i] + [data[i]], data[i + 1..]);
    ConcatSnoc(data[..i], data[i]);
    var report := head + Concat(data[..i]) + data[i] + Concat(data[i + 1..]);
    assert BuildReport(age, gender, data) == report;
    var start := |head| + |Concat(data[..i])|;
    assert report[start..start + |data[i]|] == data[i];
  }

  /**
   When every received line is one row ending in its line break, the report
   holds three header lines plus one line per row.
   */
  lemma ReportRowCount(age: int, gender: string, data: seq<string>)
    requires '\n' !in gender
    requires forall i :: 0 <= i < |data| ==> CountChar(data[i], '\n') == 1
    ensures CountChar(BuildReport(age, gender, data), '\n') == 3 + |data|
  {
    ReportNoData(age, gender);
    ConcatLineCount(data);
    CountCharAppend(MetaBlock(age, gender) + ColumnHeader, Concat(data), '\n');
  }

  lemma {:induction false} ConcatLineCount(data: seq<string>)
    requires forall i :: 0 <= i < |data| ==> CountChar(data[i], '\n') == 1
    ensures CountChar(Concat(data), '\n') == |data|
    decreases |data|
  {
    if |data| > 0 {
      var init := data[..|data| - 1];
      ConcatLineCount(init);
      CountCharAppend(Concat(init), data[|data| - 1], '\n');
    }
  }
}
