/**
 * The layout of a KPI log that `get_table_data_from_csv` reads, written out
 * as a reference writer: each table is a header line of column keys (the
 * first key is `Frame`, the wave index) and one line per wave, every line
 * being its fields joined by commas and ended by `,False` and a newline;
 * the tables of several runs follow one another.
 *
 * The round trip ReadWrittenLog says that reading table `n` of such a log
 * gives back exactly the header and the columns of the `n`-th table.
 */
module KpiLog {
  import opened Py
  import opened Strings
  import opened KpiTable

  /** One table of a KPI log: the column keys and the rows of fields. */
  datatype Block = Block(header: seq<string>, rows: seq<seq<string>>)

  /** A line: its fields joined by commas. */
  function Line(fields: seq<string>): string
  {
    Join(fields, FieldSeparator)
  }

  function Lines(rows: seq<seq<string>>): (r: seq<string>)
    ensures |r| == |rows|
    ensures forall j :: 0 <= j < |rows| ==> r[j] == Line(rows[j])
  {
    if rows == [] then [] else [Line(rows[0])] + Lines(rows[1..])
  }

  function RowsText(rows: seq<seq<string>>): string
  {
    if rows == [] then "" else Line(rows[0]) + RowTrailer + RowsText(rows[1..])
  }

  function BlockText(b: Block): string
  {
    Line(b.header) + RowTrailer + RowsText(b.rows)
  }

  function BlockTexts(log: seq<Block>): (r: seq<string>)
    ensures |r| == |log|
    ensures forall i :: 0 <= i < |log| ==> r[i] == BlockText(log[i])
  {
    if log == [] then [] else [BlockText(log[0])] + BlockTexts(log[1..])
  }

  /** A log: the texts of its tables, one after the other. */
  function LogText(log: seq<Block>): string
  {
    Concat(BlockTexts(log))
  }

  function Concat(texts: seq<string>): string
  {
    if texts == [] then "" else texts[0] + Concat(texts[1..])
  }

  /** A field that the layout can carry: no comma, no newline and no `Frame`. */
  predicate PlainField(f: string)
  {
    ',' !in f && '\n' !in f && !Contains(f, TableMarker)
  }

  /**
   * A table whose text reads back unchanged: its first key is `Frame`, its
   * keys are distinct, every other field is plain, and every row has a
   * field for every key and is not one empty field.
   */
  predicate WellFormed(b: Block)
  {
    && |b.header| >= 1 && b.header[0] == TableMarker
    && NoDuplicates(b.header)
    && (forall k :: 1 <= k < |b.header| ==> PlainField(b.header[k]))
    && (forall j :: 0 <= j < |b.rows| ==> |b.header| <= |b.rows[j]| && b.rows[j] != [""])
    && (forall j, k :: 0 <= j < |b.rows| && 0 <= k < |b.rows[j]| ==> PlainField(b.rows[j][k]))
  }

  /** Every table of the log is well formed. */
  predicate AllWellFormed(log: seq<Block>)
  {
    forall i :: 0 <= i < |log| ==> WellFormed(log[i])
  }

  /** The dictionary a block stands for: its keys and, for each, the column of its fields. */
  function Expected(b: Block): Table
    requires WellFormed(b)
  {
    assert RowsCover(b.rows, |b.header|);
    Table(b.header, seq(|b.header|, k requires 0 <= k < |b.header| => Column(b.rows, k)))
  }

  /**
   * Reading table `n` (counted from 1) of a written log gives back the
   * keys and columns of the `n`-th table that was written.
   */
  lemma ReadWrittenLog(log: seq<Block>, n: int)
    requires AllWellFormed(log)
    requires 1 <= n <= |log|
    ensures |Tables(LogText(log))| == |log|
    ensures TableData(LogText(log), n) == Success(Expected(log[n - 1]))
  {
    var text, b := LogText(log), log[n - 1];
    TablesOfLog(log);
    assert Tables(text)[n - 1] == BlockText(b);
    TableNumberIsOneBased(text, n);
    ReadBlock(b);
  }

  // ---------------------------------------------------------------------------
  // Cutting a log into tables

  /** The text of a table: `Frame`, then something non-empty in which `Frame` does not occur. */
  predicate MarkedText(t: string)
  {
    |t| > |TableMarker| && t[..|TableMarker|] == TableMarker && !Contains(t[|TableMarker|..], TableMarker)
  }

  /** Every text is the text of a table. */
  predicate AllMarked(texts: seq<string>)
  {
    forall i :: 0 <= i < |texts| ==> MarkedText(texts[i])
  }

  lemma BlockIsMarked(b: Block)
    requires WellFormed(b)
    ensures MarkedText(BlockText(b))
  {
    var tail := HeaderTail(b.header);
    RowsTextMarkerFree(b.rows);
    TrailerGlueFree(tail, RowsText(b.rows));
    assert BlockText(b) == TableMarker + (tail + RowTrailer + RowsText(b.rows));
  }

  /** The header line after its leading `Frame`, which holds no `Frame`. */
  lemma HeaderTail(header: seq<string>) returns (tail: string)
    requires |header| >= 1 && header[0] == TableMarker
    requires forall k :: 1 <= k < |header| ==> PlainField(header[k])
    ensures Line(header) == TableMarker + tail && !Contains(tail, TableMarker)
  {
    assert header == [TableMarker] + header[1..];
    NothingInEmpty(TableMarker);
    if |header| == 1 {
      tail := "";
    } else {
      var rest := header[1..];
      tail := FieldSeparator + Line(rest);
      forall k | 0 <= k < |rest| ensures PlainField(rest[k]) {
        assert rest[k] == header[k + 1];
      }
      LineMarkerFree(rest);
      GlueFree("", ',', Line(rest), TableMarker);
      assert "" + [','] + Line(rest) == tail;
    }
  }

  /** The texts after their leading `Frame`. */
  function Unmarked(texts: seq<string>): (r: seq<string>)
    requires forall i :: 0 <= i < |texts| ==> |texts[i]| >= |TableMarker|
    ensures |r| == |texts|
    ensures forall i :: 0 <= i < |texts| ==> r[i] == texts[i][|TableMarker|..]
  {
    if texts == [] then [] else [texts[0][|TableMarker|..]] + Unmarked(texts[1..])
  }

  lemma JoinCons(x: string, tail: seq<string>, sep: string)
    ensures Join([x] + tail, sep) == if tail == [] then x else x + sep + Join(tail, sep)
  {
    assert ([x] + tail)[1..] == tail;
  }

  /** Every text starts with `Frame`. */
  predicate AllPrefixed(texts: seq<string>)
  {
    forall i :: 0 <= i < |texts| ==> |texts[i]| >= |TableMarker| && texts[i][..|TableMarker|] == TableMarker
  }

  lemma {:induction false} ConcatJoinsUnmarked(texts: seq<string>)
    requires AllPrefixed(texts)
    ensures Concat(texts) == Join([""] + Unmarked(texts), TableMarker)
    decreases |texts|
  {
    if texts != [] {
      var rest := texts[1..];
      var head, tail := texts[0][|TableMarker|..], Unmarked(rest);
      assert AllPrefixed(rest) by {
        forall i | 0 <= i < |rest| ensures |rest[i]| >= |TableMarker| && rest[i][..|TableMarker|] == TableMarker {
          assert rest[i] == texts[i + 1];
        }
      }
      ConcatJoinsUnmarked(rest);
      assert texts[0] == TableMarker + head;
      assert Concat(texts) == texts[0] + Concat(rest);
      assert [""] + Unmarked(texts) == [""] + ([head] + tail);
      JoinCons("", [head] + tail, TableMarker);
      if tail == [] {
        assert [head] + tail == [head];
        assert TableMarker + head + "" == "" + TableMarker + head;
      } else {
        JoinCons(head, tail, TableMarker);
        JoinCons("", tail, TableMarker);
        Regroup(TableMarker, head, Join(tail, TableMarker));
      }
    }
  }

  lemma Regroup(m: string, h: string, j: string)
    ensures m + h + ("" + m + j) == "" + m + (h + m + j)
  {
  }

  lemma {:induction false} ReprefixOfNonEmpty(pieces: seq<string>)
    requires forall i :: 0 <= i < |pieces| ==> pieces[i] != ""
    ensures |Reprefix(pieces)| == |pieces|
    ensures forall i :: 0 <= i < |pieces| ==> Reprefix(pieces)[i] == TableMarker + pieces[i]
    decreases |pieces|
  {
    if pieces != [] {
      ReprefixOfNonEmpty(pieces[..|pieces| - 1]);
    }
  }

  lemma SplitConcat(texts: seq<string>)
    requires AllMarked(texts)
    ensures Split(Concat(texts), TableMarker) == [""] + Unmarked(texts)
  {
    var pieces := [""] + Unmarked(texts);
    assert AllPrefixed(texts);
    ConcatJoinsUnmarked(texts);
    UnborderedSeparators();
    forall i | 0 <= i < |pieces| ensures !Contains(pieces[i], TableMarker) {
      if i == 0 {
        NothingInEmpty(TableMarker);
      } else {
        assert pieces[i] == texts[i - 1][|TableMarker|..];
      }
    }
    SplitJoin(pieces, TableMarker);
  }

  /** Cutting texts of tables, written one after the other, at `Frame` gives back the texts. */
  lemma TablesOfConcat(texts: seq<string>)
    requires AllMarked(texts)
    ensures Tables(Concat(texts)) == texts
  {
    SplitConcat(texts);
    ReprefixLeadingEmpty(Unmarked(texts));
    assert StrictlyPrefixed(texts);
    ReprefixUnmarked(texts);
  }

  /** Every text is `Frame` followed by something non-empty. */
  predicate StrictlyPrefixed(texts: seq<string>)
  {
    forall i :: 0 <= i < |texts| ==> |texts[i]| > |TableMarker| && texts[i][..|TableMarker|] == TableMarker
  }

  lemma ReprefixUnmarked(texts: seq<string>)
    requires StrictlyPrefixed(texts)
    ensures Reprefix(Unmarked(texts)) == texts
  {
    var rests := Unmarked(texts);
    forall i | 0 <= i < |rests| ensures rests[i] != "" {
      assert |rests[i]| == |texts[i]| - |TableMarker|;
    }
    ReprefixOfNonEmpty(rests);
    var tables := Reprefix(rests);
    forall i | 0 <= i < |texts| ensures tables[i] == texts[i] {
      assert tables[i] == TableMarker + rests[i];
      assert texts[i] == texts[i][..|TableMarker|] + texts[i][|TableMarker|..];
    }
  }

  lemma ReprefixLeadingEmpty(pieces: seq<string>)
    ensures Reprefix([""] + pieces) == Reprefix(pieces)
  {
    ReprefixAppend([""], pieces);
    assert Reprefix([""]) == [] by {
      assert [""][..0] == [];
    }
  }

  /** The tables of a written log are the texts of its blocks. */
  lemma TablesOfLog(log: seq<Block>)
    requires AllWellFormed(log)
    ensures Tables(LogText(log)) == BlockTexts(log)
  {
    var texts := BlockTexts(log);
    assert LogText(log) == Concat(texts);
    BlockTextsMarked(log);
    TablesOfConcat(texts);
  }

  lemma BlockTextsMarked(log: seq<Block>)
    requires AllWellFormed(log)
    ensures AllMarked(BlockTexts(log))
  {
    var texts := BlockTexts(log);
    forall i | 0 <= i < |texts| ensures MarkedText(texts[i]) {
      BlockIsMarked(log[i]);
    }
  }

  // ---------------------------------------------------------------------------
  // Reading one table

  lemma {:induction false} BlockTextJoinsLines(x: string, rows: seq<seq<string>>)
    ensures Join([x] + Lines(rows) + [""], RowTrailer) == x + RowTrailer + RowsText(rows)
    decreases |rows|
  {
    if rows == [] {
      assert [x] + Lines(rows) + [""] == [x, ""];
    } else {
      var y, rest := Line(rows[0]), rows[1..];
      var tail := [y] + Lines(rest) + [""];
      BlockTextJoinsLines(y, rest);
      assert Lines(rows) == [y] + Lines(rest);
      assert [x] + Lines(rows) + [""] == [x] + tail;
      JoinCons(x, tail, RowTrailer);
      assert RowsText(rows) == y + RowTrailer + RowsText(rest);
    }
  }

  /** A row that reads back as itself: at least one field, not one empty field, no commas. */
  predicate PlainRow(row: seq<string>)
  {
    |row| >= 1 && row != [""] && forall k :: 0 <= k < |row| ==> ',' !in row[k]
  }

  lemma DataRowsOfLine(row: seq<string>)
    requires PlainRow(row)
    ensures DataRows([Line(row)]) == [row]
  {
    LineSplits(row);
    assert [Line(row)][..0] == [];
  }

  lemma {:induction false} DataRowsOfLines(rows: seq<seq<string>>)
    requires forall j :: 0 <= j < |rows| ==> PlainRow(rows[j])
    ensures DataRows(Lines(rows)) == rows
    decreases |rows|
  {
    if rows != [] {
      var rest := rows[1..];
      forall j | 0 <= j < |rest| ensures PlainRow(rest[j]) {
        assert rest[j] == rows[j + 1];
      }
      DataRowsOfLines(rest);
      DataRowsOfLine(rows[0]);
      DataRowsAppend([Line(rows[0])], Lines(rest));
      assert rows == [rows[0]] + rest;
    }
  }

  /** A line cut at its commas gives back its fields. */
  lemma LineSplits(fields: seq<string>)
    requires |fields| >= 1
    requires forall k :: 0 <= k < |fields| ==> ',' !in fields[k]
    ensures Split(Line(fields), FieldSeparator) == fields
  {
    UnborderedSeparators();
    forall k | 0 <= k < |fields| ensures !Contains(fields[k], FieldSeparator) {
      CharNotInNoOccurrence(fields[k], FieldSeparator, 0);
    }
    SplitJoin(fields, FieldSeparator);
  }

  lemma {:induction false} DistinctOfNoDuplicates(s: seq<string>)
    requires NoDuplicates(s)
    ensures Distinct(s) == s
    decreases |s|
  {
    if s != [] {
      DistinctOfNoDuplicates(s[..|s| - 1]);
      assert s[|s| - 1] !in s[..|s| - 1];
      assert s == s[..|s| - 1] + [s[|s| - 1]];
    }
  }

  /** The text of a block cut at its row trailers: the header line, the row lines and a last empty piece. */
  lemma BlockSegments(b: Block)
    requires WellFormed(b)
    ensures Split(BlockText(b), RowTrailer) == [Line(b.header)] + Lines(b.rows) + [""]
  {
    var pieces := [Line(b.header)] + Lines(b.rows) + [""];
    BlockTextJoinsLines(Line(b.header), b.rows);
    UnborderedSeparators();
    forall i | 0 <= i < |pieces| ensures !Contains(pieces[i], RowTrailer) {
      if i == 0 {
        LineNoNewline(b.header);
      } else if i < |pieces| - 1 {
        LineNoNewline(b.rows[i - 1]);
        assert pieces[i] == Line(b.rows[i - 1]);
      }
      CharNotInNoOccurrence(pieces[i], RowTrailer, 6);
    }
    SplitJoin(pieces, RowTrailer);
  }

  lemma RowSegments(b: Block)
    requires WellFormed(b)
    ensures DataRows(Lines(b.rows) + [""]) == b.rows
  {
    DataRowsAppend(Lines(b.rows), [""]);
    SplitEmpty("", FieldSeparator);
    assert DataRows([""]) == [] by {
      assert [""][..0] == [];
    }
    DataRowsOfLines(b.rows);
  }

  /** Reading the text of a well-formed block gives back the block's dictionary. */
  lemma ReadBlock(b: Block)
    requires WellFormed(b)
    ensures ParseTable(BlockText(b)) == Success(Expected(b))
  {
    HeaderOfBlock(b);
    RowsOfBlock(b);
    assert RowsCover(b.rows, |b.header|);
    var t := ParseTable(BlockText(b)).value;
    assert t.columns == Expected(b).columns;
  }

  lemma HeaderOfBlock(b: Block)
    requires WellFormed(b)
    ensures Distinct(Split(Split(BlockText(b), RowTrailer)[0], FieldSeparator)) == b.header
  {
    BlockSegments(b);
    LineSplits(b.header);
    DistinctOfNoDuplicates(b.header);
  }

  lemma RowsOfBlock(b: Block)
    requires WellFormed(b)
    ensures DataRows(Split(BlockText(b), RowTrailer)[1..]) == b.rows
  {
    var segments := Split(BlockText(b), RowTrailer);
    BlockSegments(b);
    assert segments[1..] == Lines(b.rows) + [""];
    RowSegments(b);
  }

  // ---------------------------------------------------------------------------
  // Where a separator or the marker cannot occur

  lemma NothingInEmpty(sub: string)
    requires sub != ""
    ensures !Contains("", sub)
  {
    assert !OccursAt("", sub, 0);
  }

  /** A string lacking one of the characters of `sub` does not contain `sub`. */
  lemma CharNotInNoOccurrence(x: string, sub: string, k: nat)
    requires k < |sub| && sub[k] !in x
    ensures !Contains(x, sub)
  {
    forall j: nat ensures !OccursAt(x, sub, j) {
      if j + |sub| <= |x| {
        assert x[j..j + |sub|][k] == x[j + k];
      }
    }
  }

  /** An occurrence of `sub` cannot cross a character that `sub` does not contain. */
  lemma GlueFree(a: string, c: char, b: string, sub: string)
    requires c !in sub && !Contains(a, sub) && !Contains(b, sub)
    ensures !Contains(a + [c] + b, sub)
  {
    var s := a + [c] + b;
    forall j: nat ensures !OccursAt(s, sub, j) {
      if j + |sub| <= |a| {
        assert s[j..j + |sub|] == a[j..j + |sub|];
        assert !OccursAt(a, sub, j);
      } else if j > |a| {
        var i: nat := j - |a| - 1;
        if j + |sub| <= |s| {
          assert s[j..j + |sub|] == b[i..i + |sub|];
        }
        assert !OccursAt(b, sub, i);
      } else if j + |sub| <= |s| {
        assert s[j..j + |sub|][|a| - j] == c;
      }
    }
  }

  lemma TrailerGlueFree(a: string, b: string)
    requires !Contains(a, TableMarker) && !Contains(b, TableMarker)
    ensures !Contains(a + RowTrailer + b, TableMarker)
  {
    var word := "False";
    var tail := word + ['\n'] + b;
    CharNotInNoOccurrence(word, TableMarker, 1);
    GlueFree(word, '\n', b, TableMarker);
    GlueFree(a, ',', tail, TableMarker);
    assert RowTrailer == [','] + word + ['\n'];
    Regroup2(a, ',', word, '\n', b);
  }

  lemma Regroup2(a: string, c: char, w: string, d: char, b: string)
    ensures a + ([c] + w + [d]) + b == a + [c] + (w + [d] + b)
  {
  }

  lemma {:induction false} LineMarkerFree(fields: seq<string>)
    requires forall k :: 0 <= k < |fields| ==> PlainField(fields[k])
    ensures !Contains(Line(fields), TableMarker)
    decreases |fields|
  {
    if |fields| == 0 {
      NothingInEmpty(TableMarker);
    } else if |fields| > 1 {
      LineMarkerFree(fields[1..]);
      GlueFree(fields[0], ',', Line(fields[1..]), TableMarker);
      assert Line(fields) == fields[0] + [','] + Line(fields[1..]);
    }
  }

  lemma {:induction false} LineNoNewline(fields: seq<string>)
    requires forall k :: 0 <= k < |fields| ==> '\n' !in fields[k]
    ensures '\n' !in Line(fields)
    decreases |fields|
  {
    if |fields| > 1 {
      LineNoNewline(fields[1..]);
    }
  }

  lemma {:induction false} RowsTextMarkerFree(rows: seq<seq<string>>)
    requires forall j, k :: 0 <= j < |rows| && 0 <= k < |rows[j]| ==> PlainField(rows[j][k])
    ensures !Contains(RowsText(rows), TableMarker)
    decreases |rows|
  {
    if rows == [] {
      NothingInEmpty(TableMarker);
    } else {
      RowsTextMarkerFree(rows[1..]);
      LineMarkerFree(rows[0]);
      TrailerGlueFree(Line(rows[0]), RowsText(rows[1..]));
    }
  }
}
