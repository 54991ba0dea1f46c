/**
 * The KPI log reader of the plotting utilities: `get_table_data_from_csv`
 * turns the text of a KPI log (one or more tables, each starting with the
 * word `Frame` and each of whose rows ends in `,False` and a newline) into
 * a dictionary from column key to the column's values.
 *
 * A Python dictionary keeps its keys in insertion order; a parsed table is
 * modelled as the sequence of its keys and, at the same positions, the
 * sequence of their columns.
 */
module KpiTable {
  import opened Py
  import opened Strings

  /** The word every table starts with; the log is cut into tables at it. */
  const TableMarker: string := "Frame"
  /** What ends the header line and every data row. */
  const RowTrailer: string := ",False\n"
  /** What separates the fields of a line. */
  const FieldSeparator: string := ","

  /** A parsed table: its keys in dictionary order and, at the same positions, their columns. */
  datatype Table = Table(keys: seq<string>, columns: seq<seq<string>>)

  /**
   * The tables of a log, from the pieces between the occurrences of
   * `Frame`: each non-empty piece, with `Frame` put back in front.
   */
  function Reprefix(pieces: seq<string>): seq<string>
  {
    if pieces == [] then []
    else
      var last := pieces[|pieces| - 1];
      Reprefix(pieces[..|pieces| - 1]) + (if last != "" then [TableMarker + last] else [])
  }

  function Tables(content: string): seq<string>
  {
    Reprefix(Split(content, TableMarker))
  }

  /** The data rows of a table: the segments after the header, cut into fields, except those that are one empty field. */
  function DataRows(segments: seq<string>): (r: seq<seq<string>>)
    ensures |r| <= |segments|
    ensures forall j :: 0 <= j < |r| ==> r[j] != [""]
  {
    if segments == [] then []
    else
      var data := Split(segments[|segments| - 1], FieldSeparator);
      DataRows(segments[..|segments| - 1]) + (if data != [""] then [data] else [])
  }

  /** Every row has at least `width` fields. */
  predicate RowsCover(rows: seq<seq<string>>, width: nat)
  {
    forall j :: 0 <= j < |rows| ==> width <= |rows[j]|
  }

  /** Field `k` of every row, in row order. */
  function Column(rows: seq<seq<string>>, k: nat): (c: seq<string>)
    requires forall j :: 0 <= j < |rows| ==> k < |rows[j]|
    ensures |c| == |rows|
    ensures forall j :: 0 <= j < |rows| ==> c[j] == rows[j][k]
  {
    if rows == [] then []
    else Column(rows[..|rows| - 1], k) + [rows[|rows| - 1][k]]
  }

  /**
   * The dictionary built from the text of one table: its keys are the
   * distinct fields of the header (the text before the first row trailer),
   * and each key's column holds, for every data row, the row's field at the
   * key's position. A data row with fewer fields than there are keys makes
   * Python raise IndexError.
   */
  function ParseTable(text: string): (r: Result<Table>)
    ensures r.Failure? ==> r.error == IndexError
    ensures r.Success? ==> |r.value.keys| >= 1 && |r.value.columns| == |r.value.keys|
    ensures r.Success? ==> NoDuplicates(r.value.keys)
    ensures r.Success? ==> forall x :: x in r.value.keys <==> x in Split(Split(text, RowTrailer)[0], FieldSeparator)
    ensures r.Failure? <==> !RowsCover(DataRows(Split(text, RowTrailer)[1..]), |Distinct(Split(Split(text, RowTrailer)[0], FieldSeparator))|)
    ensures r.Success? ==> forall k :: 0 <= k < |r.value.columns| ==> |r.value.columns[k]| == |DataRows(Split(text, RowTrailer)[1..])|
    ensures r.Success? ==> r.value.keys == Distinct(Split(Split(text, RowTrailer)[0], FieldSeparator))
    ensures r.Success? ==> forall k :: 0 <= k < |r.value.keys| ==>
      r.value.columns[k] == Column(DataRows(Split(text, RowTrailer)[1..]), k)
  {
    var segments := Split(text, RowTrailer);
    var keys := Distinct(Split(segments[0], FieldSeparator));
    var rows := DataRows(segments[1..]);
    if RowsCover(rows, |keys|) then
      Success(Table(keys, seq(|keys|, k requires 0 <= k < |keys| => Column(rows, k))))
    else
      Failure(IndexError)
  }

  /**
   * `get_table_data_from_csv(content, table_number)`: the dictionary of
   * table `table_number` (counted from 1, with Python's wrap-around for
   * numbers below 1) of the log `content`.
   */
  function TableData(content: string, tableNumber: int): (r: Result<Table>)
    ensures ListIndex(tableNumber - 1, |Tables(content)|).None? ==> r == Failure(IndexError)
    ensures r.Failure? ==> r.error == IndexError
    ensures r.Success? ==> |r.value.keys| >= 1 && |r.value.columns| == |r.value.keys| && NoDuplicates(r.value.keys)
  {
    var tables := Tables(content);
    match ListIndex(tableNumber - 1, |tables|)
    case None => Failure(IndexError)
    case Some(t) => ParseTable(tables[t])
  }

  method GetTableDataFromCsv(content: string, tableNumber: int) returns (r: Result<Table>)
    ensures r == TableData(content, tableNumber)
  {
    var tables := SplitTables(content);
    var index := ListIndex(tableNumber - 1, |tables|);
    if index.None? {
      return Failure(IndexError);
    }
    var segments := Split(tables[index.value], RowTrailer);
    var keys := Distinct(Split(segments[0], FieldSeparator));
    var columns := FillColumns(segments[1..], |keys|);
    if columns.Failure? {
      return Failure(IndexError);
    }
    assert columns.value == seq(|keys|, k requires 0 <= k < |keys| => Column(DataRows(segments[1..]), k));
    return Success(Table(keys, columns.value));
  }

  /** The loop that collects the tables of a log (lines 20-23 of the source). */
  method SplitTables(content: string) returns (tables: seq<string>)
    ensures tables == Tables(content)
  {
    var pieces := Split(content, TableMarker);
    tables := [];
    for i := 0 to |pieces|
      invariant tables == Reprefix(pieces[..i])
    {
      assert pieces[..i + 1][..i] == pieces[..i];
      if pieces[i] != "" {
        tables := tables + [TableMarker + pieces[i]];
      }
    }
    assert pieces[..|pieces|] == pieces;
  }

  /**
   * The outer loop that fills the `width` columns from the data segments
   * (lines 28-32 of the source): each segment is cut into fields, and
   * unless it is one empty field, its fields are appended to the columns.
   */
  method FillColumns(segments: seq<string>, width: nat) returns (r: Result<seq<seq<string>>>)
    ensures r.Failure? <==> !RowsCover(DataRows(segments), width)
    ensures r.Failure? ==> r.error == IndexError
    ensures r.Success? ==> |r.value| == width
    ensures r.Success? ==> forall k :: 0 <= k < width ==> r.value[k] == Column(DataRows(segments), k)
  {
    var columns: seq<seq<string>> := seq(width, _ => []);
    assert DataRows(segments[..0]) == [];
    for e := 0 to |segments|
      invariant RowsCover(DataRows(segments[..e]), width)
      invariant |columns| == width
      invariant forall k :: 0 <= k < width ==> columns[k] == Column(DataRows(segments[..e]), k)
    {
      var done := DataRows(segments[..e]);
      var data := Split(segments[e], FieldSeparator);
      DataRowsStep(segments, e);
      if data != [""] {
        var next := AppendFields(columns, data);
        if next.Failure? {
          ShortRowUncovers(segments, e, width);
          return Failure(IndexError);
        }
        columns := next.value;
        ColumnsStep(done, data, width);
      }
    }
    assert segments[..|segments|] == segments;
    return Success(columns);
  }

  /**
   * The inner loop (lines 31-32 of the source): field `k` of a row is
   * appended to column `k`, raising IndexError at the first column the
   * row has no field for.
   */
  method AppendFields(columns: seq<seq<string>>, data: seq<string>) returns (r: Result<seq<seq<string>>>)
    ensures r.Failure? <==> |data| < |columns|
    ensures r.Failure? ==> r.error == IndexError
    ensures r.Success? ==> |r.value| == |columns|
    ensures r.Success? ==> forall k :: 0 <= k < |columns| ==> r.value[k] == columns[k] + [data[k]]
  {
    var acc := columns;
    for k := 0 to |columns|
      invariant |acc| == |columns|
      invariant k <= |data|
      invariant forall m :: 0 <= m < k ==> acc[m] == columns[m] + [data[m]]
      invariant forall m :: k <= m < |columns| ==> acc[m] == columns[m]
    {
      if k >= |data| {
        return Failure(IndexError);
      }
      acc := acc[k := acc[k] + [data[k]]];
    }
    return Success(acc);
  }

  lemma DataRowsStep(segments: seq<string>, e: nat)
    requires e < |segments|
    ensures var data := Split(segments[e], FieldSeparator);
      DataRows(segments[..e + 1]) == DataRows(segments[..e]) + (if data != [""] then [data] else [])
  {
    assert segments[..e + 1][..e] == segments[..e];
  }

  /** A kept row with fewer fields than the width leaves the rows uncovered. */
  lemma ShortRowUncovers(segments: seq<string>, e: nat, width: nat)
    requires e < |segments|
    requires Split(segments[e], FieldSeparator) != [""] && |Split(segments[e], FieldSeparator)| < width
    ensures !RowsCover(DataRows(segments), width)
  {
    RowsCoverPrefix(segments, e + 1, width);
    DataRowsStep(segments, e);
    var done := DataRows(segments[..e]);
    assert DataRows(segments[..e + 1])[|done|] == Split(segments[e], FieldSeparator);
  }

  /** The rows of a prefix of the segments are covered when all rows are. */
  lemma {:induction false} RowsCoverPrefix(segments: seq<string>, e: nat, width: nat)
    requires e <= |segments|
    ensures RowsCover(DataRows(segments), width) ==> RowsCover(DataRows(segments[..e]), width)
    decreases |segments|
  {
    if e < |segments| {
      var init := segments[..|segments| - 1];
      var data := Split(segments[|segments| - 1], FieldSeparator);
      RowsCoverPrefix(init, e, width);
      assert init[..e] == segments[..e];
      RowsCoverConcat(DataRows(init), if data != [""] then [data] else [], width);
    } else {
      assert segments[..e] == segments;
    }
  }

  lemma RowsCoverConcat(a: seq<seq<string>>, b: seq<seq<string>>, width: nat)
    ensures RowsCover(a + b, width) ==> RowsCover(a, width)
  {
    assert forall j :: 0 <= j < |a| ==> a[j] == (a + b)[j];
  }

  lemma ColumnsStep(done: seq<seq<string>>, data: seq<string>, width: nat)
    requires RowsCover(done, width) && width <= |data|
    ensures RowsCover(done + [data], width)
    ensures forall k :: 0 <= k < width ==> Column(done + [data], k) == Column(done, k) + [data[k]]
  {
    assert (done + [data])[..|done|] == done;
  }

  lemma {:induction false} DataRowsAppend(a: seq<string>, b: seq<string>)
    ensures DataRows(a + b) == DataRows(a) + DataRows(b)
    decreases |b|
  {
    if b == [] {
      assert a + b == a;
    } else {
      var init := b[..|b| - 1];
      assert (a + b)[..|a + b| - 1] == a + init;
      assert (a + b)[|a + b| - 1] == b[|b| - 1];
      DataRowsAppend(a, init);
    }
  }

  lemma {:induction false} ReprefixAppend(a: seq<string>, b: seq<string>)
    ensures Reprefix(a + b) == Reprefix(a) + Reprefix(b)
    decreases |b|
  {
    if b == [] {
      assert a + b == a;
    } else {
      var init := b[..|b| - 1];
      assert (a + b)[..|a + b| - 1] == a + init;
      assert (a + b)[|a + b| - 1] == b[|b| - 1];
      ReprefixAppend(a, init);
    }
  }

  /** Every table of a log is `Frame` followed by a non-empty text in which `Frame` does not occur. */
  lemma TablesAreMarkedPieces(content: string)
    ensures forall i :: 0 <= i < |Tables(content)| ==>
      |Tables(content)[i]| > |TableMarker| && StartsWith(Tables(content)[i], TableMarker)
      && !Contains(Tables(content)[i][|TableMarker|..], TableMarker)
  {
    ReprefixMarked(Split(content, TableMarker));
  }

  lemma {:induction false} ReprefixMarked(pieces: seq<string>)
    requires forall k :: 0 <= k < |pieces| ==> !Contains(pieces[k], TableMarker)
    ensures forall i :: 0 <= i < |Reprefix(pieces)| ==>
      |Reprefix(pieces)[i]| > |TableMarker| && StartsWith(Reprefix(pieces)[i], TableMarker)
      && !Contains(Reprefix(pieces)[i][|TableMarker|..], TableMarker)
    decreases |pieces|
  {
    if pieces != [] {
      var last := pieces[|pieces| - 1];
      ReprefixMarked(pieces[..|pieces| - 1]);
      if last != "" {
        var t := TableMarker + last;
        assert t[..|TableMarker|] == TableMarker && t[|TableMarker|..] == last;
      }
    }
  }

  /**
   * Text before the first `Frame` of a log is not dropped: when the log
   * does not start with `Frame`, its first table is `Frame` followed by
   * that text.
   */
  lemma LeadingTextIsTable(content: string)
    requires content != "" && !StartsWith(content, TableMarker)
    ensures |Tables(content)| >= 1
    ensures Tables(content)[0] == TableMarker + match Find(content, TableMarker)
      case None => content
      case Some(i) => content[..i]
  {
    var pieces := Split(content, TableMarker);
    var first := match Find(content, TableMarker) case None => content case Some(i) => content[..i];
    assert pieces[0] == first;
    assert first != "" by {
      if Find(content, TableMarker).Some? {
        assert content[0..|TableMarker|] == content[..|TableMarker|];
      }
    }
    assert pieces == [first] + pieces[1..];
    ReprefixAppend([first], pieces[1..]);
    assert Reprefix([first]) == [TableMarker + first] by {
      assert [first][..0] == [];
    }
  }

  /** `table_number` counts tables from 1; numbers below 1 wrap around to the end, as Python indexing does. */
  lemma TableNumberIsOneBased(content: string, tableNumber: int)
    ensures 1 <= tableNumber <= |Tables(content)| ==>
      TableData(content, tableNumber) == ParseTable(Tables(content)[tableNumber - 1])
    ensures 1 - |Tables(content)| <= tableNumber <= 0 ==>
      TableData(content, tableNumber) == ParseTable(Tables(content)[|Tables(content)| + tableNumber - 1])
    ensures (tableNumber > |Tables(content)| || tableNumber < 1 - |Tables(content)|) ==>
      TableData(content, tableNumber) == Failure(IndexError)
  {
    var tables := Tables(content);
    var index := ListIndex(tableNumber - 1, |tables|);
    assert TableData(content, tableNumber) == if index.None? then Failure(IndexError) else ParseTable(tables[index.value]);
  }

  /** The segments after the header that hold data: all but the empty ones. */
  function KeptSegments(segments: seq<string>): (r: seq<string>)
    ensures forall j :: 0 <= j < |r| ==> r[j] != "" && r[j] in segments
    ensures forall x :: x in segments && x != "" ==> x in r
  {
    if segments == [] then []
    else
      var last := segments[|segments| - 1];
      KeptSegments(segments[..|segments| - 1]) + (if last != "" then [last] else [])
  }

  /**
   * The data rows are the non-empty segments cut into fields: the test
   * `data != ['']` drops exactly the empty segments, such as the one after
   * the last row trailer.
   */
  lemma {:induction false} DataRowsAreKeptSegments(segments: seq<string>)
    ensures |DataRows(segments)| == |KeptSegments(segments)|
    ensures forall j :: 0 <= j < |DataRows(segments)| ==>
      DataRows(segments)[j] == Split(KeptSegments(segments)[j], FieldSeparator)
    decreases |segments|
  {
    if segments != [] {
      DataRowsAreKeptSegments(segments[..|segments| - 1]);
      SplitEmpty(segments[|segments| - 1], FieldSeparator);
    }
  }

  /**
   * The columns of a parsed table: every column has one entry per kept data
   * segment, and entry `j` of column `k` is field `k` of the `j`-th kept
   * segment (further fields of a segment are ignored).
   */
  lemma ColumnsFollowKeptSegments(text: string)
    requires ParseTable(text).Success?
    ensures var t, kept := ParseTable(text).value, KeptSegments(Split(text, RowTrailer)[1..]);
      forall k :: 0 <= k < |t.keys| ==>
        (|t.columns[k]| == |kept| &&
         forall j :: 0 <= j < |kept| ==>
           (k < |Split(kept[j], FieldSeparator)| && t.columns[k][j] == Split(kept[j], FieldSeparator)[k]))
  {
    DataRowsAreKeptSegments(Split(text, RowTrailer)[1..]);
  }

  /** When a text ends with an unbordered separator, the last piece of splitting it is empty. */
  lemma {:induction false} SplitEndingWithSeparator(s: string, sep: string)
    requires sep != "" && Unbordered(sep) && |sep| <= |s| && s[|s| - |sep|..] == sep
    ensures Split(s, sep)[|Split(s, sep)| - 1] == ""
    decreases |s|
  {
    var head := s[..|s| - |sep|];
    assert s == head + sep + "";
    assert OccursAt(s, sep, |head|);
    var i := Find(s, sep).value;
    assert i <= |head|;
    StraddleFails(head, sep, "", i);
    assert i == |head| || i + |sep| <= |head|;
    var rest := s[i + |sep|..];
    assert Split(s, sep) == [s[..i]] + Split(rest, sep);
    if i < |head| {
      assert |rest| >= |sep|;
      assert rest[|rest| - |sep|..] == s[|s| - |sep|..];
      SplitEndingWithSeparator(rest, sep);
    } else {
      assert rest == "";
      SplitEmpty(rest, sep);
    }
  }

  lemma UnborderedSeparators()
    ensures Unbordered(TableMarker) && Unbordered(RowTrailer) && Unbordered(FieldSeparator)
  {
    forall m | 0 < m < |TableMarker| ensures TableMarker[..m] != TableMarker[|TableMarker| - m..] {
      assert TableMarker[..m][0] != TableMarker[|TableMarker| - m..][0];
    }
    forall m | 0 < m < |RowTrailer| ensures RowTrailer[..m] != RowTrailer[|RowTrailer| - m..] {
      assert RowTrailer[..m][0] != RowTrailer[|RowTrailer| - m..][0];
    }
  }

  /** A table's text ends with a row trailer, so the piece after its last trailer is empty and is not a data row. */
  lemma TrailingPieceIsDropped(text: string)
    requires |RowTrailer| <= |text| && text[|text| - |RowTrailer|..] == RowTrailer
    ensures var segments := Split(text, RowTrailer);
      segments[|segments| - 1] == "" && DataRows(segments[1..]) == DataRows(segments[1..|segments| - 1])
  {
    UnborderedSeparators();
    SplitEndingWithSeparator(text, RowTrailer);
    var segments := Split(text, RowTrailer);
    if |segments| > 1 {
      assert segments[1..][..|segments[1..]| - 1] == segments[1..|segments| - 1];
      SplitEmpty("", FieldSeparator);
    }
  }
}
