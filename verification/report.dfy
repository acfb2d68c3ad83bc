/** create_pdf.py: the hand-scored result tables of the PDF report, the
    rows built from them, and the headings that embed a Hebrew word. The
    document layout itself belongs to reportlab. */
module Report {
  import opened Seqs
  import opened Hebrew
  import opened Config
  import Job

  /** An entry of SHALOM_RESULTS or FIRGUN_RESULTS: model, pass flag (0 or
      1), note. */
  datatype TestRow = TestRow(model: string, passed: int, notes: string)

  /** An entry of OVERALL_SCORES: model, the two pass flags, their total,
      note. */
  datatype ScoreRow = ScoreRow(model: string, shalom: int, firgun: int, total: int, notes: string)

  const ShalomResults: seq<TestRow> := [
    TestRow("Gemini 3 Pro", 1, "Correct Hebrew"),
    TestRow("Nano Banana Pro", 1, "Correct Hebrew"),
    TestRow("Wan 2.5", 0, "Valid letters, wrong word"),
    TestRow("Flux 2", 0, "Hebrew mixed with Latin"),
    TestRow("Flux 2 Pro", 0, "Missing letters"),
    TestRow("Flux Dev", 0, "Arabic script"),
    TestRow("Imagen 4", 0, "Hebrew letters, nonsensical"),
    TestRow("Ideogram V2", 0, "Russian-like text"),
    TestRow("Qwen Image", 0, "Invalid characters"),
    TestRow("SD 3.5 Large", 0, "Nonsensical"),
    TestRow("Recraft V3", 0, "Invalid characters"),
    TestRow("Aura Flow", 0, "English word")
  ]

  const FirgunResults: seq<TestRow> := [
    TestRow("Gemini 3 Pro", 1, "Correct + contextual emojis"),
    TestRow("Nano Banana Pro", 1, "Correct"),
    TestRow("Wan 2.5", 1, "Correct"),
    TestRow("Flux 2", 0, "Valid letters, nonsensical word"),
    TestRow("Flux 2 Pro", 0, "Valid letters, nonsensical word"),
    TestRow("Flux Dev", 0, "Random English words"),
    TestRow("Imagen 4", 0, "Hebrew letters, nonsensical"),
    TestRow("Ideogram V2", 0, "Russian-like text"),
    TestRow("Qwen Image", 0, "Nonsensical"),
    TestRow("SD 3.5 Large", 0, "Nonsensical"),
    TestRow("Recraft V3", 0, "Random English word"),
    TestRow("Aura Flow", 0, "Invalid Hebrew-like")
  ]

  const OverallScores: seq<ScoreRow> := [
    ScoreRow("Gemini 3 Pro", 1, 1, 2, "Best - contextual understanding"),
    ScoreRow("Nano Banana Pro", 1, 1, 2, "Reliable Hebrew rendering"),
    ScoreRow("Wan 2.5", 0, 1, 1, "Partial success"),
    ScoreRow("Flux 2", 0, 0, 0, ""),
    ScoreRow("Flux 2 Pro", 0, 0, 0, ""),
    ScoreRow("Flux Dev", 0, 0, 0, ""),
    ScoreRow("Imagen 4", 0, 0, 0, ""),
    ScoreRow("Ideogram V2", 0, 0, 0, ""),
    ScoreRow("Qwen Image", 0, 0, 0, ""),
    ScoreRow("SD 3.5 Large", 0, 0, 0, ""),
    ScoreRow("Recraft V3", 0, 0, 0, ""),
    ScoreRow("Aura Flow", 0, 0, 0, "")
  ]

  /** The overall scores agree with the two test tables, row by row: same
      model, same flags, and a total that is their sum. */
  ghost predicate Consistent(overall: seq<ScoreRow>, shalom: seq<TestRow>, firgun: seq<TestRow>)
  {
    && |overall| == |shalom| == |firgun|
    && forall k :: 0 <= k < |overall| ==>
      && overall[k].model == shalom[k].model == firgun[k].model
      && overall[k].shalom == shalom[k].passed && overall[k].firgun == firgun[k].passed
      && overall[k].total == overall[k].shalom + overall[k].firgun
  }

  /** Every flag is 0 or 1, so every total is between 0 and 2. */
  ghost predicate Flags(overall: seq<ScoreRow>)
  {
    forall k :: 0 <= k < |overall| ==> 0 <= overall[k].shalom <= 1 && 0 <= overall[k].firgun <= 1
  }

  lemma {:induction false} TotalsBounded(overall: seq<ScoreRow>, shalom: seq<TestRow>, firgun: seq<TestRow>)
    requires Consistent(overall, shalom, firgun) && Flags(overall)
    ensures forall k :: 0 <= k < |overall| ==> 0 <= overall[k].total <= 2
    ensures forall k :: 0 <= k < |overall| ==> (overall[k].total == 2 <==> shalom[k].passed == 1 && firgun[k].passed == 1)
  {
  }

  function ScoreNames(rows: seq<ScoreRow>): seq<string>
  {
    seq(|rows|, k requires 0 <= k < |rows| => rows[k].model)
  }

  function TestNames(rows: seq<TestRow>): seq<string>
  {
    seq(|rows|, k requires 0 <= k < |rows| => rows[k].model)
  }

  function TestFlags(rows: seq<TestRow>): seq<int>
  {
    seq(|rows|, k requires 0 <= k < |rows| => rows[k].passed)
  }

  function ScoreColumns(rows: seq<ScoreRow>): seq<(int, int, int)>
  {
    seq(|rows|, k requires 0 <= k < |rows| => (rows[k].shalom, rows[k].firgun, rows[k].total))
  }

  /** The report lists the models in this order of the series-1 list. */
  const ReportOrder: seq<int> := [4, 5, 6, 0, 1, 2, 3, 8, 7, 9, 10, 11]

  const ReportNames: seq<string> := [
    "Gemini 3 Pro", "Nano Banana Pro", "Wan 2.5", "Flux 2", "Flux 2 Pro", "Flux Dev",
    "Imagen 4", "Ideogram V2", "Qwen Image", "SD 3.5 Large", "Recraft V3", "Aura Flow"
  ]

  lemma {:induction false} ReportNamesListed()
    ensures ScoreNames(OverallScores) == ReportNames
    ensures TestNames(ShalomResults) == ReportNames && TestNames(FirgunResults) == ReportNames
  {
  }

  lemma {:induction false} ReportColumnsListed()
    ensures TestFlags(ShalomResults) == [1, 1, 0, 0, 0, 0, 0, 0, 0, 0, 0, 0]
    ensures TestFlags(FirgunResults) == [1, 1, 1, 0, 0, 0, 0, 0, 0, 0, 0, 0]
    ensures ScoreColumns(OverallScores) ==
      [(1, 1, 2), (1, 1, 2), (0, 1, 1), (0, 0, 0), (0, 0, 0), (0, 0, 0),
       (0, 0, 0), (0, 0, 0), (0, 0, 0), (0, 0, 0), (0, 0, 0), (0, 0, 0)]
  {
  }

  /** The three tables of the report agree, and every flag is 0 or 1. */
  lemma {:induction false} ReportConsistent()
    ensures Consistent(OverallScores, ShalomResults, FirgunResults) && Flags(OverallScores)
  {
    ReportNamesListed();
    ReportColumnsListed();
    forall k | 0 <= k < |OverallScores|
      ensures && OverallScores[k].model == ShalomResults[k].model == FirgunResults[k].model
              && OverallScores[k].shalom == ShalomResults[k].passed
              && OverallScores[k].firgun == FirgunResults[k].passed
              && OverallScores[k].total == OverallScores[k].shalom + OverallScores[k].firgun
              && 0 <= OverallScores[k].shalom <= 1 && 0 <= OverallScores[k].firgun <= 1
    {
      assert ScoreNames(OverallScores)[k] == OverallScores[k].model;
      assert TestNames(ShalomResults)[k] == ShalomResults[k].model;
      assert TestNames(FirgunResults)[k] == FirgunResults[k].model;
      assert TestFlags(ShalomResults)[k] == ShalomResults[k].passed;
      assert TestFlags(FirgunResults)[k] == FirgunResults[k].passed;
      assert ScoreColumns(OverallScores)[k] == (OverallScores[k].shalom, OverallScores[k].firgun, OverallScores[k].total);
    }
  }

  /** ReportOrder is a permutation of the twelve series-1 positions. */
  lemma {:induction false} ReportOrderPermutes()
    ensures |ReportOrder| == 12
    ensures forall k :: 0 <= k < |ReportOrder| ==> 0 <= ReportOrder[k] < 12
    ensures forall k, k' :: 0 <= k < k' < |ReportOrder| ==> ReportOrder[k] != ReportOrder[k']
  {
  }

  /** ReportOrder maps the report's model names onto the series-1 names,
      so every series-1 model is scored exactly once. */
  lemma {:induction false} ReportCoversSeries1()
    ensures |ReportNames| == |Series1Names| == |ReportOrder|
    ensures forall k :: 0 <= k < |ReportNames| ==>
      0 <= ReportOrder[k] < |Series1Names| && ReportNames[k] == Series1Names[ReportOrder[k]]
  {
    ReportOrderPermutes();
  }

  /** A cell of the report: a check mark for a truthy flag, a cross
      otherwise (Python's `"✓" if flag else "✗"`). */
  function Mark(flag: int): string
  {
    Job.Mark(flag != 0)
  }

  function DigitChar(d: int): (c: char)
    requires 0 <= d < 10
    ensures '0' <= c <= '9' && c as int - '0' as int == d
  {
    ('0' as int + d) as char
  }

  predicate IsDigit(c: char) { '0' <= c <= '9' }

  predicate AllDigits(s: string)
  {
    forall i :: 0 <= i < |s| ==> IsDigit(s[i])
  }

  /** Python's `str(n)` for a natural number. */
  function NatDecimal(n: nat): (s: string)
    ensures |s| >= 1 && AllDigits(s)
    ensures n > 0 ==> s[0] != '0'
    decreases n
  {
    if n < 10 then [DigitChar(n)]
    else
      var front := NatDecimal(n / 10);
      assert front + [DigitChar(n % 10)] == front + [DigitChar(n % 10)];
      front + [DigitChar(n % 10)]
  }

  /** Python's `str(n)` for an integer: a minus sign before a negative. */
  function Decimal(n: int): string
  {
    if n < 0 then "-" + NatDecimal(-n) else NatDecimal(n)
  }

  /** The value of a string of decimal digits. */
  function DigitsValue(s: string): nat
    requires AllDigits(s)
    decreases |s|
  {
    if |s| == 0 then 0
    else
      var last := s[|s| - 1];
      assert IsDigit(last);
      DigitsValue(s[..|s| - 1]) * 10 + (last as int - '0' as int)
  }

  /** Python's `int(s)` on an optional minus sign followed by digits. */
  function ParseDecimal(s: string): Option<int>
  {
    if |s| > 1 && s[0] == '-' && AllDigits(s[1..]) then Some(-(DigitsValue(s[1..]) as int))
    else if |s| > 0 && AllDigits(s) then Some(DigitsValue(s))
    else None
  }

  lemma {:induction false} NatDecimalValue(n: nat)
    ensures DigitsValue(NatDecimal(n)) == n
    decreases n
  {
    if n >= 10 {
      NatDecimalValue(n / 10);
      var s := NatDecimal(n);
      assert s[..|s| - 1] == NatDecimal(n / 10);
    }
  }

  /** Digits are read back as their value; a digit string has no sign. */
  lemma {:induction false} ParseDigits(s: string)
    requires |s| >= 1 && AllDigits(s)
    ensures ParseDecimal(s) == Some(DigitsValue(s))
  {
    assert IsDigit(s[0]);
  }

  lemma {:induction false} ParseSigned(s: string)
    requires |s| >= 1 && AllDigits(s)
    ensures ParseDecimal("-" + s) == Some(-(DigitsValue(s) as int))
  {
    assert ("-" + s)[1..] == s;
  }

  /** Reading back the decimal text gives the number. */
  lemma {:induction false} DecimalRoundTrip(n: int)
    ensures ParseDecimal(Decimal(n)) == Some(n)
  {
    if n < 0 {
      NatDecimalValue(-n);
      ParseSigned(NatDecimal(-n));
    } else {
      NatDecimalValue(n);
      ParseDigits(NatDecimal(n));
    }
  }

  /** The score cell `f"{total}/2"`. */
  function ScoreCell(total: int): string
  {
    Decimal(total) + "/2"
  }

  /** Reading a score cell: the number before the "/2" suffix. */
  function ParseScore(cell: string): Option<int>
  {
    if |cell| >= 2 && cell[|cell| - 2..] == "/2" then ParseDecimal(cell[..|cell| - 2]) else None
  }

  lemma {:induction false} ScoreCellRoundTrip(total: int)
    ensures ParseScore(ScoreCell(total)) == Some(total)
  {
    var cell := ScoreCell(total);
    assert cell[..|cell| - 2] == Decimal(total);
    assert cell[|cell| - 2..] == "/2";
    DecimalRoundTrip(total);
  }

  const ShalomHeader: string := "שלום"
  const FirgunHeader: string := "פירגון"

  function OverallRow(e: ScoreRow): seq<string>
  {
    [e.model, Mark(e.shalom), Mark(e.firgun), ScoreCell(e.total), e.notes]
  }

  /** The overall table: a header row, then one row per score entry. */
  function OverallTable(scores: seq<ScoreRow>): seq<seq<string>>
  {
    [["Model", ReverseRuns(ShalomHeader), ReverseRuns(FirgunHeader), "Score", "Notes"]]
      + seq(|scores|, k requires 0 <= k < |scores| => OverallRow(scores[k]))
  }

  function TestRowCells(e: TestRow): seq<string>
  {
    [e.model, Mark(e.passed), e.notes]
  }

  /** A per-test table: a header row, then one row per test entry. */
  function TestTable(results: seq<TestRow>): seq<seq<string>>
  {
    [["Model", "Pass", "Notes"]]
      + seq(|results|, k requires 0 <= k < |results| => TestRowCells(results[k]))
  }

  /** Row k + 1 of the overall table shows entry k: its model, a tick in a
      test column exactly when that test passed, and a score cell that
      reads back as the total. */
  lemma {:induction false} OverallTableShape(scores: seq<ScoreRow>, k: int)
    requires 0 <= k < |scores|
    ensures |OverallTable(scores)| == |scores| + 1
    ensures var row := OverallTable(scores)[k + 1];
      && |row| == 5 && row[0] == scores[k].model && row[4] == scores[k].notes
      && (row[1] == "✓" <==> scores[k].shalom != 0) && (row[1] == "✗" <==> scores[k].shalom == 0)
      && (row[2] == "✓" <==> scores[k].firgun != 0) && (row[2] == "✗" <==> scores[k].firgun == 0)
      && ParseScore(row[3]) == Some(scores[k].total)
  {
    OverallRowAt(scores, k);
    OverallRowShows(scores[k]);
  }

  lemma {:induction false} OverallRowShows(e: ScoreRow)
    ensures var row := OverallRow(e);
      && |row| == 5 && row[0] == e.model && row[4] == e.notes
      && (row[1] == "✓" <==> e.shalom != 0) && (row[1] == "✗" <==> e.shalom == 0)
      && (row[2] == "✓" <==> e.firgun != 0) && (row[2] == "✗" <==> e.firgun == 0)
      && ParseScore(row[3]) == Some(e.total)
  {
    MarkShowsFlag(e.shalom);
    MarkShowsFlag(e.firgun);
    ScoreCellRoundTrip(e.total);
  }

  /** A tick for a truthy flag, a cross for zero, and never both. */
  lemma {:induction false} MarkShowsFlag(flag: int)
    ensures Mark(flag) == "✓" <==> flag != 0
    ensures Mark(flag) == "✗" <==> flag == 0
  {
    assert "✓"[0] != "✗"[0];
  }

  /** Row k + 1 of a test table shows entry k with a tick exactly when it
      passed. */
  lemma {:induction false} TestTableShape(results: seq<TestRow>, k: int)
    requires 0 <= k < |results|
    ensures |TestTable(results)| == |results| + 1
    ensures var row := TestTable(results)[k + 1];
      && |row| == 3 && row[0] == results[k].model && row[2] == results[k].notes
      && (row[1] == "✓" <==> results[k].passed != 0) && (row[1] == "✗" <==> results[k].passed == 0)
  {
    TestRowAt(results, k);
    MarkShowsFlag(results[k].passed);
  }

  /** When the tables are consistent, the two test columns of a model in
      the overall table repeat its marks in the two test tables. */
  lemma {:induction false} OverallAgreesWithTests(overall: seq<ScoreRow>, shalom: seq<TestRow>, firgun: seq<TestRow>, k: int)
    requires Consistent(overall, shalom, firgun) && 0 <= k < |overall|
    ensures OverallTable(overall)[k + 1][0] == TestTable(shalom)[k + 1][0] == TestTable(firgun)[k + 1][0]
    ensures OverallTable(overall)[k + 1][1] == TestTable(shalom)[k + 1][1]
    ensures OverallTable(overall)[k + 1][2] == TestTable(firgun)[k + 1][1]
  {
    OverallRowAt(overall, k);
    TestRowAt(shalom, k);
    TestRowAt(firgun, k);
    assert overall[k].model == shalom[k].model == firgun[k].model;
    assert overall[k].shalom == shalom[k].passed && overall[k].firgun == firgun[k].passed;
  }

  lemma {:induction false} OverallRowAt(scores: seq<ScoreRow>, k: int)
    requires 0 <= k < |scores|
    ensures |OverallTable(scores)| == |scores| + 1 && OverallTable(scores)[k + 1] == OverallRow(scores[k])
  {
  }

  lemma {:induction false} TestRowAt(results: seq<TestRow>, k: int)
    requires 0 <= k < |results|
    ensures |TestTable(results)| == |results| + 1 && TestTable(results)[k + 1] == TestRowCells(results[k])
  {
  }

  /** A heading built as `prefix + reverse_hebrew(word) + suffix`. */
  function Heading(prefix: string, word: string, suffix: string): string
  {
    prefix + ReverseRuns(word) + suffix
  }

  /** With no Hebrew in the surrounding text, reversing only the word is
      the same as reversing the whole heading run by run. */
  lemma {:induction false} HeadingIsRunWise(prefix: string, word: string, suffix: string)
    requires NoHebrew(prefix) && NoHebrew(suffix)
    ensures Heading(prefix, word, suffix) == ReverseRuns(prefix + word + suffix)
  {
    ReverseRunsConcat(prefix, word);
    assert prefix + word == [] || suffix == [] || !IsHebrew(suffix[0]);
    ReverseRunsConcat(prefix + word, suffix);
    NoHebrewUnchanged(prefix);
    NoHebrewUnchanged(suffix);
  }
}
