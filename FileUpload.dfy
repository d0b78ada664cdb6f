/** The CSV row transform of the upload control: the first row is a header
    and is dropped; every other row becomes a field record made of its first
    three cells, trimmed. Tokenising the file is not part of this model: the
    parsed rows arrive as sequences of cell strings. */
module FileUpload {
  import opened JsValues
  import opened JsStrings
  import opened FormModel

  /** `row[k]?.trim()`: the trimmed cell, or undefined past the end of the row. */
  function Cell(row: seq<string>, k: nat): (c: Option<string>)
    ensures c.Some? <==> k < |row|
    ensures c.Some? ==> Trimmed(c.value)
  {
    if k < |row| then
      TrimSpec(row[k]);
      Some(Trim(row[k]))
    else None
  }

  /** The record `{ field, fieldType, placeholder }` built from one row. */
  function RowRecord(row: seq<string>): (f: Field)
  {
    EmptyField.(field := Cell(row, 0), fieldType := Cell(row, 1), placeholder := Cell(row, 2))
  }

  /** `rows.map(row => …)`. */
  function MapRows(rows: seq<seq<string>>): (r: seq<Field>)
    ensures |r| == |rows|
  {
    if rows == [] then [] else [RowRecord(rows[0])] + MapRows(rows[1..])
  }

  /** `results.data.slice(1).map(row => …)`. */
  function TransformRows(rows: seq<seq<string>>): (r: seq<Field>)
    ensures |rows| == 0 ==> r == []
  {
    if |rows| == 0 then [] else MapRows(rows[1..])
  }

  lemma {:induction false} MapRowsAt(rows: seq<seq<string>>, i: nat)
    requires i < |rows|
    ensures MapRows(rows)[i] == RowRecord(rows[i])
  {
    if i > 0 {
      MapRowsAt(rows[1..], i - 1);
    }
  }

  /** The header is dropped and every other row gives one record, in order. */
  lemma TransformRowsShape(rows: seq<seq<string>>)
    ensures |TransformRows(rows)| == if |rows| == 0 then 0 else |rows| - 1
    ensures forall i :: 0 <= i < |TransformRows(rows)| ==> TransformRows(rows)[i] == RowRecord(rows[i + 1])
  {
    forall i | 0 <= i < |TransformRows(rows)| ensures TransformRows(rows)[i] == RowRecord(rows[i + 1]) {
      MapRowsAt(rows[1..], i);
    }
  }

  /** Whatever the header holds, it does not reach the output. */
  lemma HeaderIgnored(h1: seq<string>, h2: seq<string>, rows: seq<seq<string>>)
    ensures TransformRows([h1] + rows) == TransformRows([h2] + rows)
  {
    assert ([h1] + rows)[1..] == rows == ([h2] + rows)[1..];
  }

  /** A record carries only `field`, `fieldType` and `placeholder`; each is
      the trimmed cell 0, 1 or 2, and is undefined when the row is too short.
      No label or section is read, and no value is checked: an empty or
      unknown `fieldType` passes through. */
  lemma RowRecordCells(row: seq<string>)
    ensures RowRecord(row).field == (if 0 < |row| then Some(Trim(row[0])) else None)
    ensures RowRecord(row).fieldType == (if 1 < |row| then Some(Trim(row[1])) else None)
    ensures RowRecord(row).placeholder == (if 2 < |row| then Some(Trim(row[2])) else None)
    ensures RowRecord(row).(field := None, fieldType := None, placeholder := None) == EmptyField
  {
  }

  /** Cells after the third are ignored. */
  lemma ExtraCellsIgnored(row: seq<string>, extra: seq<string>)
    requires |row| >= 3
    ensures RowRecord(row + extra) == RowRecord(row)
  {
    assert (row + extra)[0] == row[0] && (row + extra)[1] == row[1] && (row + extra)[2] == row[2];
  }

  /** Every value produced has no whitespace at either end. */
  lemma TransformRowsTrimmed(rows: seq<seq<string>>)
    ensures forall f :: f in TransformRows(rows) ==>
      (f.field.Some? ==> Trimmed(f.field.value)) &&
      (f.fieldType.Some? ==> Trimmed(f.fieldType.value)) &&
      (f.placeholder.Some? ==> Trimmed(f.placeholder.value))
  {
    TransformRowsShape(rows);
    forall f | f in TransformRows(rows)
      ensures f.field.Some? ==> Trimmed(f.field.value)
      ensures f.fieldType.Some? ==> Trimmed(f.fieldType.value)
      ensures f.placeholder.Some? ==> Trimmed(f.placeholder.value)
    {
      var i :| 0 <= i < |TransformRows(rows)| && TransformRows(rows)[i] == f;
      assert f == RowRecord(rows[i + 1]);
    }
  }

  /** A record's values are the trimmed cells: surrounding whitespace in the
      file makes no difference. */
  lemma PaddingIgnored(row: seq<string>, padded: seq<string>)
    requires |row| == |padded|
    requires forall k :: 0 <= k < |row| ==> Trim(padded[k]) == Trim(row[k])
    ensures RowRecord(padded) == RowRecord(row)
  {
    assert Cell(padded, 0) == Cell(row, 0);
    assert Cell(padded, 1) == Cell(row, 1);
    assert Cell(padded, 2) == Cell(row, 2);
  }
}
