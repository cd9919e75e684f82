/**
 * Table extraction: every `<table>` becomes a Table holding the texts of
 * its header cells, the texts of its data rows, and the inner HTML of the
 * cells of every row.
 */
module TableExtraction {
  import opened Common
  import opened Dom

  /** A table's id and class (`cls`) attributes and the extracted cells. */
  datatype Table = Table(id: string, cls: string, header: seq<string>, data: seq<seq<string>>, rawCells: seq<seq<string>>)

  /** The text of each cell, in order. */
  function Texts(cells: seq<Element>): (r: seq<string>)
    ensures |r| == |cells|
    ensures forall i :: 0 <= i < |cells| ==> r[i] == cells[i].text
  {
    seq(|cells|, i requires 0 <= i < |cells| => cells[i].text)
  }

  /** The inner HTML of each cell, in order, leaving out cells whose HTML could not be rendered. */
  function Htmls(cells: seq<Element>): (r: seq<string>)
    ensures |r| <= |cells|
  {
    if cells == [] then []
    else
      var last := cells[|cells| - 1];
      Htmls(cells[..|cells| - 1]) + (match last.html case Some(h) => [h] case None => [])
  }

  /** The raw-cell entry of one row: its `<th>` HTML, then its `<td>` HTML. */
  function RawRow(row: Row): (r: seq<string>)
    ensures |r| <= |row.ths| + |row.tds|
  {
    Htmls(row.ths) + Htmls(row.tds)
  }

  /** When every cell renders, the HTML list has one entry per cell, in cell order. */
  lemma {:induction false} HtmlsAllRender(cells: seq<Element>)
    requires forall i :: 0 <= i < |cells| ==> cells[i].html.Some?
    ensures |Htmls(cells)| == |cells|
    ensures forall i :: 0 <= i < |cells| ==> Htmls(cells)[i] == cells[i].html.value
  {
    if cells != [] {
      HtmlsAllRender(cells[..|cells| - 1]);
    }
  }

  /** When every cell of a row renders, its raw cells are the `<th>` HTML followed by the `<td>` HTML. */
  lemma RawRowAllRender(row: Row)
    requires forall i :: 0 <= i < |row.ths| ==> row.ths[i].html.Some?
    requires forall j :: 0 <= j < |row.tds| ==> row.tds[j].html.Some?
    ensures |RawRow(row)| == |row.ths| + |row.tds|
    ensures forall i :: 0 <= i < |row.ths| ==> RawRow(row)[i] == row.ths[i].html.value
    ensures forall j :: 0 <= j < |row.tds| ==> RawRow(row)[|row.ths| + j] == row.tds[j].html.value
  {
    HtmlsAllRender(row.ths);
    HtmlsAllRender(row.tds);
  }

  /** The table after one more `<tr>` has been visited. */
  function AddRow(t: Table, row: Row): Table
  {
    t.(header := t.header + Texts(row.ths),
       data := if |Texts(row.tds)| > 0 then t.data + [Texts(row.tds)] else t.data,
       rawCells := t.rawCells + [RawRow(row)])
  }

  /** The table after the rows have been visited in order. */
  function AddRows(t: Table, rows: seq<Row>): Table
  {
    if rows == [] then t else AddRow(AddRows(t, rows[..|rows| - 1]), rows[|rows| - 1])
  }

  /** The Table one `<table>` element yields. */
  function TableOf(te: TableElem): Table
  {
    AddRows(Table(AttrOr(te.elem, "id", ""), AttrOr(te.elem, "class", ""), [], [], []), te.rows)
  }

  /** All header texts of the rows, row after row: the table-wide header. */
  function HeaderOf(rows: seq<Row>): seq<string>
  {
    if rows == [] then [] else Texts(rows[0].ths) + HeaderOf(rows[1..])
  }

  /** The td texts of exactly the rows that have at least one `<td>`, in order. */
  function DataOf(rows: seq<Row>): seq<seq<string>>
  {
    if rows == [] then []
    else (if |rows[0].tds| > 0 then [Texts(rows[0].tds)] else []) + DataOf(rows[1..])
  }

  /** How many rows have at least one `<td>`. */
  function DataRowCount(rows: seq<Row>): nat
  {
    if rows == [] then 0 else (if |rows[0].tds| > 0 then 1 else 0) + DataRowCount(rows[1..])
  }

  lemma {:induction false} HeaderOfSnoc(rows: seq<Row>, row: Row)
    ensures HeaderOf(rows + [row]) == HeaderOf(rows) + Texts(row.ths)
  {
    if rows == [] {
      assert rows + [row] == [row];
    } else {
      assert (rows + [row])[1..] == rows[1..] + [row];
      HeaderOfSnoc(rows[1..], row);
    }
  }

  lemma {:induction false} DataOfSnoc(rows: seq<Row>, row: Row)
    ensures DataOf(rows + [row]) == DataOf(rows) + (if |row.tds| > 0 then [Texts(row.tds)] else [])
    ensures DataRowCount(rows + [row]) == DataRowCount(rows) + (if |row.tds| > 0 then 1 else 0)
  {
    if rows == [] {
      assert rows + [row] == [row];
    } else {
      assert (rows + [row])[1..] == rows[1..] + [row];
      DataOfSnoc(rows[1..], row);
    }
  }

  lemma {:induction false} DataRowCountIsLength(rows: seq<Row>)
    ensures |DataOf(rows)| == DataRowCount(rows)
  {
    if rows != [] {
      DataRowCountIsLength(rows[1..]);
    }
  }

  /**
   * What visiting the rows does to a table: the header gains every `<th>`
   * text, Data gains a row exactly for each row with a `<td>`, and RawCells
   * gains one entry per row, that row's raw cells; id and class stay.
   */
  lemma {:induction false} AddRowsShape(t: Table, rows: seq<Row>)
    ensures AddRows(t, rows).id == t.id && AddRows(t, rows).cls == t.cls
    ensures AddRows(t, rows).header == t.header + HeaderOf(rows)
    ensures AddRows(t, rows).data == t.data + DataOf(rows)
    ensures |AddRows(t, rows).rawCells| == |t.rawCells| + |rows|
    ensures forall j :: 0 <= j < |t.rawCells| ==> AddRows(t, rows).rawCells[j] == t.rawCells[j]
    ensures forall j :: 0 <= j < |rows| ==> AddRows(t, rows).rawCells[|t.rawCells| + j] == RawRow(rows[j])
  {
    if rows != [] {
      var init := rows[..|rows| - 1];
      var row := rows[|rows| - 1];
      AddRowsShape(t, init);
      HeaderOfSnoc(init, row);
      DataOfSnoc(init, row);
      assert init + [row] == rows;
    }
  }

  /**
   * The extracted table, stated without the fold: Header is every `<th>`
   * text in order, Data the td texts of the rows that have a `<td>`, and
   * RawCells exactly one entry per `<tr>`.
   */
  lemma TableOfShape(te: TableElem)
    ensures TableOf(te).header == HeaderOf(te.rows)
    ensures TableOf(te).data == DataOf(te.rows)
    ensures |TableOf(te).data| == DataRowCount(te.rows) <= |te.rows|
    ensures |TableOf(te).rawCells| == |te.rows|
    ensures forall j :: 0 <= j < |te.rows| ==> TableOf(te).rawCells[j] == RawRow(te.rows[j])
  {
    var t0 := Table(AttrOr(te.elem, "id", ""), AttrOr(te.elem, "class", ""), [], [], []);
    AddRowsShape(t0, te.rows);
    DataRowCountIsLength(te.rows);
    DataRowCountBound(te.rows);
  }

  lemma {:induction false} DataRowCountBound(rows: seq<Row>)
    ensures DataRowCount(rows) <= |rows|
  {
    if rows != [] {
      DataRowCountBound(rows[1..]);
    }
  }

  /**
   * Visits one `<tr>`: its `<th>` cells feed the header and the raw row, its
   * `<td>` cells the data row and the raw row.
   */
  method ParseRow(t: Table, tr: Row) returns (table: Table)
    ensures table == AddRow(t, tr)
  {
    table := t;
    var rawRow: seq<string> := [];
    for k := 0 to |tr.ths|
      invariant table == t.(header := t.header + Texts(tr.ths[..k]))
      invariant rawRow == Htmls(tr.ths[..k])
    {
      assert tr.ths[..k + 1][..k] == tr.ths[..k];
      var th := tr.ths[k];
      table := table.(header := table.header + [th.text]);
      assert Texts(tr.ths[..k + 1]) == Texts(tr.ths[..k]) + [th.text];
      match th.html {
        case Some(raw) => rawRow := rawRow + [raw];
        case None =>
      }
    }
    assert tr.ths[..|tr.ths|] == tr.ths;
    var row: seq<string> := [];
    for k := 0 to |tr.tds|
      invariant row == Texts(tr.tds[..k])
      invariant rawRow == Htmls(tr.ths) + Htmls(tr.tds[..k])
    {
      assert tr.tds[..k + 1][..k] == tr.tds[..k];
      var td := tr.tds[k];
      row := row + [td.text];
      match td.html {
        case Some(raw) => rawRow := rawRow + [raw];
        case None =>
      }
    }
    assert tr.tds[..|tr.tds|] == tr.tds;
    if |row| > 0 {
      table := table.(data := table.data + [row]);
    }
    table := table.(rawCells := table.rawCells + [rawRow]);
  }

  /** Visits the `<tr>` rows of one table in order. */
  method ParseTable(te: TableElem) returns (table: Table)
    ensures table == TableOf(te)
  {
    table := Table(AttrOr(te.elem, "id", ""), AttrOr(te.elem, "class", ""), [], [], []);
    ghost var t0 := table;
    for j := 0 to |te.rows|
      invariant table == AddRows(t0, te.rows[..j])
    {
      assert te.rows[..j + 1][..j] == te.rows[..j];
      table := ParseRow(table, te.rows[j]);
    }
    assert te.rows[..|te.rows|] == te.rows;
  }

  /** One Table per `<table>` of the document, in document order. */
  method ExtractTables(doc: Document) returns (tables: seq<Table>)
    ensures |tables| == |doc.tables|
    ensures forall i :: 0 <= i < |tables| ==> tables[i] == TableOf(doc.tables[i])
  {
    tables := [];
    for i := 0 to |doc.tables|
      invariant |tables| == i
      invariant forall j :: 0 <= j < i ==> tables[j] == TableOf(doc.tables[j])
    {
      var table := ParseTable(doc.tables[i]);
      tables := tables + [table];
    }
  }
}
