/**
 * The spreadsheet export: every case, archived ones included, as one
 * comma-separated line under a fixed Arabic header, behind a data-URI prefix
 * and a byte-order mark so that spreadsheet programs read the text as UTF-8.
 */
module Export {
  import opened Wrappers
  import opened Text
  import opened Records

  /** The data-URI prefix, ending in the byte-order mark U+FEFF. */
  const CsvPrefix: string := "data:text/csv;charset=utf-8,\U{FEFF}"

  /** The fourteen column titles, from the row number to the notes. */
  const CsvHeaderColumns: seq<string> := [
    "م",
    "المركز",
    "الاسم",
    "الرقم القومي",
    "المهنة",
    "رقم الهاتف",
    "اسم الزوج/ة",
    "الرقم القومي للزوج/ة",
    "الأفراد",
    "الوضع",
    "نوع المساعدة",
    "المبلغ",
    "العنوان",
    "ملاحظات"
  ]

  /** The header line: the column titles joined by commas. */
  function HeaderLine(): string {
    Join(CsvHeaderColumns, [FieldSeparator])
  }

  const FieldSeparator: char := ','
  const LineBreak: char := '\n'

  /** A case's fields as the export writes them; the two IDs get a leading apostrophe so they stay text. */
  function CsvFields(index: nat, c: Case): (f: seq<string>)
    ensures |f| == |CsvHeaderColumns|
    ensures ParseNumber(f[0]) == Some(index + 1)
    ensures f[3] == "'" + c.nationalId && f[7] == "'" + c.spouseId
  {
    IntToStringRoundTrip(index + 1);
    [ NatToString(index + 1), c.center, c.name, "'" + c.nationalId, c.job, c.phone, c.spouseName,
      "'" + c.spouseId, c.familyMembers, c.socialStatus, c.kind, c.amount, c.address, c.note ]
  }

  function CsvRow(index: nat, c: Case): string {
    Join(CsvFields(index, c), [FieldSeparator])
  }

  /** One exported line per case, numbered from 1 in collection order. */
  function Rows(cases: seq<Case>): seq<string> {
    seq(|cases|, i requires 0 <= i < |cases| => CsvRow(i, cases[i]))
  }

  /** Each line followed by a line break. */
  function Terminated(lines: seq<string>): string
    decreases |lines|
  {
    if |lines| == 0 then "" else Terminated(lines[..|lines| - 1]) + lines[|lines| - 1] + [LineBreak]
  }

  lemma TerminatedSnoc(lines: seq<string>, line: string)
    ensures Terminated(lines + [line]) == Terminated(lines) + line + [LineBreak]
  {
    assert (lines + [line])[..|lines|] == lines;
  }

  lemma RowsSnoc(cases: seq<Case>, index: nat)
    requires index < |cases|
    ensures Rows(cases[..index + 1]) == Rows(cases[..index]) + [CsvRow(index, cases[index])]
  {
  }

  /**
   * The text `exportToExcel` writes after the data-URI prefix: the header
   * line, then one line per case in collection order.
   */
  method ExportLines(cases: seq<Case>) returns (text: string)
    ensures text == Terminated([HeaderLine()] + Rows(cases))
  {
    var header := HeaderLine();
    ghost var lines: seq<string> := [header];
    TerminatedSnoc([], header);
    assert [] + [header] == lines;
    text := header + [LineBreak];
    var index := 0;
    while index < |cases|
      invariant 0 <= index <= |cases|
      invariant lines == [header] + Rows(cases[..index])
      invariant text == Terminated(lines)
    {
      var row := CsvRow(index, cases[index]);
      RowsSnoc(cases, index);
      TerminatedSnoc(lines, row);
      text := text + row + [LineBreak];
      lines := lines + [row];
      index := index + 1;
    }
    assert cases[..index] == cases;
  }

  /** `exportToExcel`: the data-URI prefix followed by the header line and one line per case. */
  method ExportCsv(cases: seq<Case>) returns (csv: string)
    ensures csv == CsvPrefix + Terminated([HeaderLine()] + Rows(cases))
  {
    var text := ExportLines(cases);
    csv := CsvPrefix + text;
  }

  /** A field the export writes without quoting is safe when it holds no comma and no line break. */
  predicate Plain(s: string) {
    FieldSeparator !in s && LineBreak !in s
  }

  /** Every text field of the case that the export writes is plain. */
  predicate CsvSafe(c: Case) {
    Plain(c.center) && Plain(c.name) && Plain(c.nationalId) && Plain(c.job) && Plain(c.phone)
    && Plain(c.spouseName) && Plain(c.spouseId) && Plain(c.familyMembers) && Plain(c.socialStatus)
    && Plain(c.kind) && Plain(c.amount) && Plain(c.address) && Plain(c.note)
  }

  /** A safe case's line holds no line break and splits on commas back into its fourteen fields. */
  lemma RowReadsBack(index: nat, c: Case)
    requires CsvSafe(c)
    ensures LineBreak !in CsvRow(index, c)
    ensures Split(CsvRow(index, c), [FieldSeparator]) == CsvFields(index, c)
  {
    var f := CsvFields(index, c);
    forall p | p in f ensures Plain(p) {
      var n := NatToString(index + 1);
      forall i | 0 <= i < |n| ensures n[i] != FieldSeparator && n[i] != LineBreak {
        assert IsDigit(n[i]);
      }
    }
    JoinFree(f, [FieldSeparator], LineBreak);
    SplitJoinChar(f, FieldSeparator);
  }

  /**
   * Fields are written without quotes, so a comma inside one adds a column:
   * a case whose note is "a,b" gives a row that splits into fifteen pieces
   * under the fourteen column titles.
   */
  lemma CommaInNoteAddsColumn(index: nat, c: Case, a: string, b: string)
    requires CsvSafe(c.(note := a)) && Plain(b)
    requires c.note == a + [FieldSeparator] + b
    ensures |Split(CsvRow(index, c), [FieldSeparator])| == |CsvHeaderColumns| + 1
  {
    var sep := [FieldSeparator];
    var f := CsvFields(index, c);
    var g := CsvFields(index, c.(note := a));
    var init := g[..13];
    assert f == init + [a + sep + b];
    assert g == init + [a];
    forall p | p in g ensures FieldSeparator !in p {
      var n := NatToString(index + 1);
      forall i | 0 <= i < |n| ensures n[i] != FieldSeparator {
        assert IsDigit(n[i]);
      }
    }
    JoinSnoc(init, sep, a + sep + b);
    JoinSnoc(init, sep, a);
    JoinSnoc(g, sep, b);
    assert Join(f, sep) == Join(g + [b], sep);
    SplitJoinChar(g + [b], FieldSeparator);
  }

  /** Terminating each line is joining them with line breaks, with an empty last piece. */
  lemma {:induction false} TerminatedJoin(lines: seq<string>)
    ensures Terminated(lines) == Join(lines + [""], [LineBreak])
    decreases |lines|
  {
    if |lines| > 0 {
      var init := lines[..|lines| - 1];
      var last := lines[|lines| - 1];
      TerminatedJoin(init);
      assert lines == init + [last];
      if |init| == 0 {
        assert lines + [""] == [last, ""];
      } else {
        JoinSnoc(init, [LineBreak], "");
        JoinSnoc(init, [LineBreak], last);
        JoinSnoc(init + [last], [LineBreak], "");
        assert init + [last] + [""] == lines + [""];
      }
    }
  }

  /** The header line is a single line. */
  lemma HeaderIsOneLine()
    ensures LineBreak !in HeaderLine()
  {
    forall p | p in CsvHeaderColumns ensures LineBreak !in p {
    }
    JoinFree(CsvHeaderColumns, [FieldSeparator], LineBreak);
  }

  /**
   * Reading the export back: split on line breaks it gives the header line,
   * then one line per case, then an empty piece after the final line break;
   * every case line splits on commas into that case's fields.
   */
  lemma ExportReadsBack(cases: seq<Case>)
    requires forall c :: c in cases ==> CsvSafe(c)
    ensures Split(Terminated([HeaderLine()] + Rows(cases)), [LineBreak]) == [HeaderLine()] + Rows(cases) + [""]
    ensures forall i :: 0 <= i < |cases| ==> Split(Rows(cases)[i], [FieldSeparator]) == CsvFields(i, cases[i])
  {
    var rows := Rows(cases);
    forall r | r in rows ensures LineBreak !in r {
      var i :| 0 <= i < |rows| && rows[i] == r;
      RowReadsBack(i, cases[i]);
    }
    HeaderIsOneLine();
    TerminatedJoin([HeaderLine()] + rows);
    SplitJoinChar([HeaderLine()] + rows + [""], LineBreak);
    forall i | 0 <= i < |cases| ensures Split(rows[i], [FieldSeparator]) == CsvFields(i, cases[i]) {
      RowReadsBack(i, cases[i]);
    }
  }
}
