/** The tabular data the dashboard works on: what pandas hands back from
    `read_excel` / `read_csv`, reduced to what cleaning and plotting look at. */
module Frames {
  import opened Sequences

  /** A pandas column dtype. Only `Object` (text-typed) columns are cleaned;
      how pandas infers the dtype is outside the model. */
  datatype Dtype = Object | Int64 | Float64 | Bool | Datetime64

  /** One cell. A text-typed column may still hold non-string values
      (numbers or dates read from a mixed spreadsheet column); `NonText`
      stands for such a value, whose exact contents the model does not need. */
  datatype Cell = Missing | Text(s: string) | NonText(v: int)

  datatype Column = Column(dtype: Dtype, cells: seq<Cell>)

  /** The errors a parse can end in: the decoder's own failure (a corrupt
      file, a bad encoding) and the `.str` accessor refusing a text-typed
      column that holds no strings. */
  datatype Error = ReadError(reason: string) | StrAccessorError

  /** A table: column labels in order, one column per label, and a row count. */
  datatype Frame = Frame(names: seq<string>, columns: seq<Column>, rows: nat)

  /** What a pandas reader guarantees: unique labels (duplicates are renamed
      on read), one column per label and the same length for every column. */
  predicate WellFormed(f: Frame) {
    |f.names| == |f.columns| && Distinct(f.names) &&
    forall j :: 0 <= j < |f.columns| ==> |f.columns[j].cells| == f.rows
  }
}
