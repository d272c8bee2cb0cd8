/** The sheet `_export_to_excel` hands to pandas: one row per scraped article and one column
    per heading position that some article fills. Writing the workbook is not modelled. */
module Export {
  import opened Pages

  const NoHeading := "No heading"

  /** The four columns every sheet starts with. */
  const BaseColumns := ["Timestamp", "URL", "First Heading", "Content"]

  /** Column names in order, and the rows; a row shorter than the header is padded by the
      data frame. */
  datatype Sheet = Sheet(columns: seq<string>, rows: seq<seq<string>>)

  /** Decimal digits of `n`, as `str(n)` writes them. */
  function NatToString(n: nat): (s: string)
    ensures |s| >= 1 && forall k :: 0 <= k < |s| ==> '0' <= s[k] <= '9'
  {
    var digit := ['0' + (n % 10) as char];
    if n < 10 then digit else NatToString(n / 10) + digit
  }

  /** The number a string of decimal digits denotes, most significant digit first. */
  function DigitsValue(s: string): nat
    decreases |s|
  {
    if s == [] then 0
    else
      var d := s[|s| - 1] as int - '0' as int;
      DigitsValue(s[..|s| - 1]) * 10 + (if 0 <= d then d else 0)
  }

  /** `str(n)` denotes `n`, and has no leading zero unless it is `"0"` itself. */
  lemma {:induction false} NatToStringValue(n: nat)
    ensures DigitsValue(NatToString(n)) == n
    ensures NatToString(n)[0] == '0' <==> n == 0
    decreases n
  {
    var s := NatToString(n);
    if n >= 10 {
      NatToStringValue(n / 10);
      assert s[..|s| - 1] == NatToString(n / 10);
      assert s[0] == NatToString(n / 10)[0];
    }
  }

  /** `f'Heading {i+1}'`: the name of the column that holds heading number `i`, counted from 0. */
  function HeadingColumn(i: nat): string {
    "Heading " + NatToString(i + 1)
  }

  /** The four fixed cells of an article's row. */
  function BaseRow(a: ArticleRecord): seq<string> {
    [a.timestamp, a.url, if a.headings != [] then a.headings[0] else NoHeading, a.content]
  }

  /** An article's row: the fixed cells, then its headings after the first, one per column. */
  function Row(a: ArticleRecord): seq<string> {
    BaseRow(a) + (if a.headings == [] then [] else a.headings[1..])
  }

  /** `max_headings`: at least 1, else the most headings any article has. */
  function MaxHeadings(records: seq<ArticleRecord>): (m: nat)
    ensures m >= 1
    decreases |records|
  {
    if records == [] then 1
    else
      var m := MaxHeadings(records[..|records| - 1]);
      var h := |records[|records| - 1].headings|;
      if h > m then h else m
  }

  /** The header for a sheet whose widest article has `maxHeadings` headings (at least 1). */
  function Columns(maxHeadings: nat): (columns: seq<string>)
    requires maxHeadings >= 1
    ensures |columns| == 3 + maxHeadings
    ensures columns[..4] == BaseColumns
    ensures forall i :: 1 <= i < maxHeadings ==> columns[3 + i] == HeadingColumn(i)
  {
    BaseColumns + seq(maxHeadings - 1, j requires 0 <= j < maxHeadings - 1 => HeadingColumn(j + 1))
  }

  function Rows(records: seq<ArticleRecord>): seq<seq<string>> {
    seq(|records|, k requires 0 <= k < |records| => Row(records[k]))
  }

  /** The sheet built from the scraped articles, in the order they were scraped. */
  function ExportTable(records: seq<ArticleRecord>): Sheet {
    Sheet(Columns(MaxHeadings(records)), Rows(records))
  }

  /** One row as the export loop builds it: the fixed cells, then each further heading
      written at position `3 + i` after the row was padded to reach it. */
  method BuildRow(a: ArticleRecord) returns (row: seq<string>)
    ensures row == Row(a)
  {
    row := BaseRow(a);
    if a.headings != [] {
      for i := 1 to |a.headings|
        invariant row == BaseRow(a) + a.headings[1..i]
      {
        while |row| <= 3 + i
          invariant 3 + i <= |row| <= 4 + i
          invariant row[..3 + i] == BaseRow(a) + a.headings[1..i]
          invariant forall k :: 3 + i <= k < |row| ==> row[k] == ""
          decreases 4 + i - |row|
        {
          row := row + [""];
        }
        assert row == BaseRow(a) + a.headings[1..i] + [""];
        row := row[3 + i := a.headings[i]];
        assert row == BaseRow(a) + a.headings[1..i + 1];
      }
    }
  }

  /** The data part of `_export_to_excel`: the rows, the widest heading count and the header. */
  method BuildSheet(records: seq<ArticleRecord>) returns (sheet: Sheet)
    ensures sheet == ExportTable(records)
  {
    var rows := BuildRows(records);
    var maxHeadings := WidestHeadings(records);
    var columns := BuildColumns(maxHeadings);
    sheet := Sheet(columns, rows);
  }

  /** One row per article, in order. */
  method BuildRows(records: seq<ArticleRecord>) returns (rows: seq<seq<string>>)
    ensures rows == Rows(records)
  {
    rows := [];
    for k := 0 to |records|
      invariant |rows| == k
      invariant forall j :: 0 <= j < k ==> rows[j] == Row(records[j])
    {
      var row := BuildRow(records[k]);
      rows := rows + [row];
    }
  }

  /** The loop that finds `max_headings`. */
  method WidestHeadings(records: seq<ArticleRecord>) returns (maxHeadings: nat)
    ensures maxHeadings == MaxHeadings(records)
  {
    maxHeadings := 1;
    for k := 0 to |records|
      invariant maxHeadings == MaxHeadings(records[..k])
    {
      assert records[..k + 1][..k] == records[..k];
      var h := |records[k].headings|;
      if h > maxHeadings {
        maxHeadings := h;
      }
    }
    assert records[..|records|] == records;
  }

  /** The header: the four fixed names, then one heading column per further position. */
  method BuildColumns(maxHeadings: nat) returns (columns: seq<string>)
    requires maxHeadings >= 1
    ensures columns == Columns(maxHeadings)
  {
    columns := BaseColumns;
    for i := 1 to maxHeadings
      invariant columns == Columns(i)
    {
      ColumnsStep(i);
      columns := columns + [HeadingColumn(i)];
    }
  }

  /** One more heading position adds its column at the end of the header. */
  lemma ColumnsStep(m: nat)
    requires m >= 1
    ensures Columns(m + 1) == Columns(m) + [HeadingColumn(m)]
  {
    var next := Columns(m + 1);
    var grown := Columns(m) + [HeadingColumn(m)];
    assert |next| == |grown|;
    forall k | 0 <= k < |next|
      ensures next[k] == grown[k]
    {
      if k < 4 {
        assert next[..4][k] == grown[..4][k];
      }
    }
  }

  /** The widest heading count is at least one, bounds every article and, when above one, is
      reached by some article. */
  lemma {:induction false} MaxHeadingsSpec(records: seq<ArticleRecord>)
    ensures forall k :: 0 <= k < |records| ==> |records[k].headings| <= MaxHeadings(records)
    ensures MaxHeadings(records) == 1 ||
      exists k :: 0 <= k < |records| && |records[k].headings| == MaxHeadings(records)
    decreases |records|
  {
    if records != [] {
      var init := records[..|records| - 1];
      MaxHeadingsSpec(init);
      assert forall k :: 0 <= k < |init| ==> init[k] == records[k];
      if MaxHeadings(records) != 1 && MaxHeadings(records) == MaxHeadings(init) {
        var k :| 0 <= k < |init| && |init[k].headings| == MaxHeadings(init);
        assert records[k] == init[k];
      }
    }
  }

  /** An article's row has one cell per heading beyond the first, on top of the four fixed
      ones; heading `i` (for `i >= 1`) sits in the cell at `3 + i`. */
  lemma RowLayout(a: ArticleRecord)
    ensures |Row(a)| == 3 + (if |a.headings| > 1 then |a.headings| else 1)
    ensures Row(a)[2] == (if a.headings != [] then a.headings[0] else NoHeading)
    ensures forall i :: 1 <= i < |a.headings| ==> Row(a)[3 + i] == a.headings[i]
  {
  }

  /** Every row fits under the header, every heading lands under the column named after its
      position, and, with at least one article, some row reaches the last column. */
  lemma SheetFits(records: seq<ArticleRecord>)
    ensures var sheet := ExportTable(records);
      && |sheet.rows| == |records|
      && (forall k :: 0 <= k < |records| ==> |sheet.rows[k]| <= |sheet.columns|)
      && (forall k, i :: 0 <= k < |records| && 1 <= i < |records[k].headings| ==>
            sheet.rows[k][3 + i] == records[k].headings[i] &&
            sheet.columns[3 + i] == HeadingColumn(i))
      && (records != [] ==> exists k :: 0 <= k < |records| && |sheet.rows[k]| == |sheet.columns|)
  {
    var sheet := ExportTable(records);
    var m := MaxHeadings(records);
    MaxHeadingsSpec(records);
    forall k | 0 <= k < |records|
      ensures |sheet.rows[k]| == 3 + (if |records[k].headings| > 1 then |records[k].headings| else 1)
      ensures forall i :: 1 <= i < |records[k].headings| ==> sheet.rows[k][3 + i] == records[k].headings[i]
    {
      RowLayout(records[k]);
    }
    if records != [] {
      if m == 1 {
        assert |sheet.rows[0]| == |sheet.columns|;
      } else {
        var k :| 0 <= k < |records| && |records[k].headings| == m;
        assert |sheet.rows[k]| == |sheet.columns|;
      }
    }
  }

  /** Different heading positions get different column names. */
  lemma {:induction false} NatToStringInjective(m: nat, n: nat)
    requires NatToString(m) == NatToString(n)
    ensures m == n
    decreases m
  {
    var sm := NatToString(m);
    var sn := NatToString(n);
    assert sm[|sm| - 1] == '0' + (m % 10) as char;
    assert sn[|sn| - 1] == '0' + (n % 10) as char;
    if m >= 10 && n >= 10 {
      assert NatToString(m / 10) == sm[..|sm| - 1];
      assert NatToString(n / 10) == sn[..|sn| - 1];
      NatToStringInjective(m / 10, n / 10);
    }
  }

  /** The column for heading `i` is `"Heading "` followed by the decimal numeral of `i + 1`. */
  lemma HeadingColumnNames(i: nat)
    ensures |HeadingColumn(i)| > 8 && HeadingColumn(i)[..8] == "Heading "
    ensures DigitsValue(HeadingColumn(i)[8..]) == i + 1
    ensures HeadingColumn(i)[8] != '0'
  {
    var name := HeadingColumn(i);
    assert name[8..] == NatToString(i + 1);
    NatToStringValue(i + 1);
  }

  lemma HeadingColumnsDistinct(i: nat, j: nat)
    requires HeadingColumn(i) == HeadingColumn(j)
    ensures i == j
  {
    var pre := "Heading ";
    assert HeadingColumn(i)[|pre|..] == NatToString(i + 1);
    assert HeadingColumn(j)[|pre|..] == NatToString(j + 1);
    NatToStringInjective(i + 1, j + 1);
  }
}
