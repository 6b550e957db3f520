/**
 * The ingester's table-to-documents step: check that the loaded table has the
 * required columns, then turn every row into one document whose text lists
 * each column as "name: value", one per line, and whose metadata carries the
 * row's ID.
 *
 * The table is given as its column names and, for each row, the text of each
 * cell as Python's `str` renders it; reading the CSV, embedding and storing
 * the documents are outside this model.
 */
module Ingest {
  import opened Wrappers
  import opened Text

  /** A loaded table: column names in order and the rendered cells of each row. */
  datatype Table = Table(columns: seq<string>, rows: seq<seq<string>>)

  /** Every row has one cell per column, as in any data frame. */
  predicate Rectangular(t: Table)
  {
    forall i :: 0 <= i < |t.rows| ==> |t.rows[i]| == |t.columns|
  }

  /** A document to embed: its text and its metadata. */
  datatype Document = Document(pageContent: string, metadata: map<string, string>)

  datatype IngestError = ValueError(missingColumn: string)

  /** The columns checked for, in the order they are checked. */
  const RequiredColumns: seq<string> := ["ID", "RECEIVED DATE"]

  /** Position of the first column with this name, or the number of columns. */
  function ColumnIndex(columns: seq<string>, name: string): (j: nat)
    ensures j <= |columns|
    ensures name !in columns[..j]
    ensures j < |columns| ==> columns[j] == name
  {
    if columns == [] then 0
    else if columns[0] == name then 0
    else 1 + ColumnIndex(columns[1..], name)
  }

  /** `f"{col}: {val}"` */
  function Entry(column: string, value: string): string
  {
    column + ": " + value
  }

  /** An entry is the column name, then `": "`, then the value, each recoverable from it. */
  lemma EntryParts(column: string, value: string)
    ensures |Entry(column, value)| == |column| + 2 + |value|
    ensures Entry(column, value)[..|column|] == column
    ensures Entry(column, value)[|column|..|column| + 2] == ": "
    ensures Entry(column, value)[|column| + 2..] == value
  {
  }

  /** An entry holds a line break exactly when its column name or its value does. */
  lemma EntrySingleLine(column: string, value: string)
    ensures '\n' in Entry(column, value) <==> '\n' in column || '\n' in value
  {
    var r := Entry(column, value);
    EntryParts(column, value);
    if '\n' in r {
      var k :| 0 <= k < |r| && r[k] == '\n';
      if k >= |column| + 2 {
        assert value[k - |column| - 2] == '\n';
      }
    }
  }

  /** The entries of one row, one per column, in column order. */
  function Entries(columns: seq<string>, row: seq<string>): (es: seq<string>)
    requires |row| == |columns|
    ensures |es| == |columns|
  {
    seq(|columns|, j requires 0 <= j < |columns| => Entry(columns[j], row[j]))
  }

  /** One more column: the entries of the first j + 1 columns extend those of the first j. */
  lemma EntriesSnoc(columns: seq<string>, row: seq<string>, j: nat)
    requires |row| == |columns| && j < |columns|
    ensures Entries(columns[..j + 1], row[..j + 1]) == Entries(columns[..j], row[..j]) + [Entry(columns[j], row[j])]
  {
  }

  /** The document built from one row. */
  function DocumentOf(columns: seq<string>, row: seq<string>): (d: Document)
    requires |row| == |columns| && "ID" in columns
    ensures d.metadata.Keys == {"ID"}
    ensures exists j :: 0 <= j < |columns| && columns[j] == "ID" && "ID" !in columns[..j] && d.metadata["ID"] == row[j]
  {
    Document(Join(Entries(columns, row), "\n"), map["ID" := row[ColumnIndex(columns, "ID")]])
  }

  /**
   * The column check and the document loop of `build_chroma_from_csv`.
   * A missing required column fails with `ValueError` naming the first one
   * missing, before any document is built; otherwise there is one document per
   * row, in row order.
   */
  method BuildDocuments(t: Table) returns (r: Result<seq<Document>, IngestError>)
    requires Rectangular(t)
    ensures "ID" !in t.columns ==> r == Err(ValueError("ID"))
    ensures "ID" in t.columns && "RECEIVED DATE" !in t.columns ==> r == Err(ValueError("RECEIVED DATE"))
    ensures "ID" in t.columns && "RECEIVED DATE" in t.columns ==>
      r.Ok? && |r.value| == |t.rows| &&
      forall i :: 0 <= i < |t.rows| ==> r.value[i] == DocumentOf(t.columns, t.rows[i])
  {
    assert RequiredColumns[0] == "ID" && RequiredColumns[1] == "RECEIVED DATE";
    for k := 0 to |RequiredColumns|
      invariant forall k' :: 0 <= k' < k ==> RequiredColumns[k'] in t.columns
    {
      if RequiredColumns[k] !in t.columns {
        return Err(ValueError(RequiredColumns[k]));
      }
    }
    assert "ID" in t.columns;
    var docs: seq<Document> := [];
    for i := 0 to |t.rows|
      invariant "ID" in t.columns
      invariant |docs| == i
      invariant forall i' :: 0 <= i' < i ==> docs[i'] == DocumentOf(t.columns, t.rows[i'])
    {
      var row := t.rows[i];
      var content: seq<string> := [];
      for j := 0 to |t.columns|
        invariant content == Entries(t.columns[..j], row[..j])
      {
        EntriesSnoc(t.columns, row, j);
        content := content + [Entry(t.columns[j], row[j])];
      }
      assert t.columns[..|t.columns|] == t.columns && row[..|row|] == row;
      var text := Join(content, "\n");
      var metadata := map["ID" := row[ColumnIndex(t.columns, "ID")]];
      assert Document(text, metadata) == DocumentOf(t.columns, row);
      docs := docs + [Document(text, metadata)];
    }
    return Ok(docs);
  }

  /** A text without line breaks. */
  predicate SingleLineText(s: string)
  {
    '\n' !in s
  }

  /**
   * When no column name or cell holds a line break, the document's lines are
   * exactly the row's entries, in column order: every column is there, the
   * required ones and any others, and nothing trails the last entry.
   */
  lemma DocumentLines(columns: seq<string>, row: seq<string>)
    requires |row| == |columns| && "ID" in columns
    requires forall j :: 0 <= j < |columns| ==> SingleLineText(columns[j]) && SingleLineText(row[j])
    ensures Lines(DocumentOf(columns, row).pageContent) == Entries(columns, row)
    ensures forall j :: 0 <= j < |columns| ==>
      Entry(columns[j], row[j]) in Lines(DocumentOf(columns, row).pageContent)
  {
    var es := Entries(columns, row);
    forall j | 0 <= j < |es| ensures '\n' !in es[j] {
      assert es[j] == columns[j] + ": " + row[j];
    }
    assert es[|es| - 1] == columns[|es| - 1] + ": " + row[|es| - 1];
    LinesOfJoin(es);
    forall j | 0 <= j < |columns| ensures Entry(columns[j], row[j]) in Lines(DocumentOf(columns, row).pageContent) {
      assert es[j] == Entry(columns[j], row[j]);
    }
  }

  /** The document's text never ends in a line break when the last cell does not. */
  lemma NoTrailingNewline(columns: seq<string>, row: seq<string>)
    requires |row| == |columns| && "ID" in columns
    requires row[|row| - 1] == [] || row[|row| - 1][|row[|row| - 1]| - 1] != '\n'
    ensures DocumentOf(columns, row).pageContent != []
    ensures DocumentOf(columns, row).pageContent[|DocumentOf(columns, row).pageContent| - 1] != '\n'
  {
    var es := Entries(columns, row);
    var n := |es|;
    var last := Entry(columns[n - 1], row[n - 1]);
    assert es[n - 1] == last;
    var text := Join(es, "\n");
    assert DocumentOf(columns, row).pageContent == text;
    EntryLastChar(columns[n - 1], row[n - 1]);
    LastCharOfSuffix(text, last);
  }

  /** The last character of an entry is the value's last, or the space after the colon for an empty value. */
  lemma EntryLastChar(column: string, value: string)
    ensures Entry(column, value)[|Entry(column, value)| - 1] == if value == [] then ' ' else value[|value| - 1]
  {
  }

  lemma LastCharOfSuffix(text: string, suffix: string)
    requires suffix != [] && |suffix| <= |text| && text[|text| - |suffix|..] == suffix
    ensures text[|text| - 1] == suffix[|suffix| - 1]
  {
    assert text[|text| - |suffix|..][|suffix| - 1] == text[|text| - 1];
  }
}
