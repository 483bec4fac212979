/**
 * The change report: a worksheet whose first row is a fixed header and whose
 * further rows are the changes of the run, in the order they were found.
 * Only the logical rows are modelled, not the workbook file.
 */
module Report {

  /** One change: the raw CPR number and the two current flags. */
  datatype ChangeRow = ChangeRow(cpr: string, digitalPost: bool, nemsms: bool)

  /** A worksheet cell: text or a boolean. */
  datatype Cell = Text(text: string) | Flag(flag: bool)

  type Sheet = seq<seq<Cell>>

  const Header: seq<Cell> := [Text("CPR"), Text("Digital Post"), Text("NemSMS")]

  function Cells(row: ChangeRow): seq<Cell> {
    [Text(row.cpr), Flag(row.digitalPost), Flag(row.nemsms)]
  }

  /** `sheet` is the header followed by the rows of `data`, one each, in order. */
  predicate IsReportOf(sheet: Sheet, data: seq<ChangeRow>) {
    && |sheet| == |data| + 1
    && sheet[0] == Header
    && forall i :: 0 <= i < |data| ==> sheet[i + 1] == Cells(data[i])
  }

  method WriteDataToOutputExcel(data: seq<ChangeRow>) returns (sheet: Sheet)
    ensures IsReportOf(sheet, data)
  {
    sheet := [Header];
    for i := 0 to |data|
      invariant IsReportOf(sheet, data[..i])
    {
      sheet := sheet + [Cells(data[i])];
    }
    assert data[..|data|] == data;
  }

  /** A sheet determines its change rows: no two change lists share a report. */
  lemma {:induction false} ReportDeterminesRows(sheet: Sheet, data1: seq<ChangeRow>, data2: seq<ChangeRow>)
    requires IsReportOf(sheet, data1) && IsReportOf(sheet, data2)
    ensures data1 == data2
  {
    forall i | 0 <= i < |data1| ensures data1[i] == data2[i] {
      assert Cells(data1[i]) == sheet[i + 1] == Cells(data2[i]);
      assert Cells(data1[i])[0].text == data1[i].cpr;
    }
  }
}
