/** The pandas DataFrame that `clean_column_values` updates in place: its
    labels and row count are fixed, its columns are replaced one by one. */
module Tables {
  import opened Wrappers
  import opened Sequences
  import opened Frames
  import opened Cleaning

  class DataFrame {
    const names: seq<string>
    const columns: array<Column>
    const rows: nat

    ghost predicate Valid()
      reads columns
    {
      columns.Length == |names| && Distinct(names) &&
      forall j :: 0 <= j < columns.Length ==> |columns[j].cells| == rows
    }

    /** The table's current contents as a value. */
    function Snapshot(): (f: Frame)
      reads columns
      ensures Valid() ==> WellFormed(f)
    {
      Frame(names, columns[..], rows)
    }

    /** Wraps a table produced by a reader. */
    constructor (f: Frame)
      requires WellFormed(f)
      ensures Valid() && fresh(columns)
      ensures Snapshot() == f
    {
      names := f.names;
      rows := f.rows;
      columns := new Column[|f.columns|](j requires 0 <= j < |f.columns| => f.columns[j]);
    }

    /** `clean_column_values(df)`: walks the columns in order and replaces every
        text-typed column by its filtered cells. When the `.str` accessor
        raises, the columns already visited stay cleaned, the rest untouched. */
    method CleanColumnValues() returns (raised: Option<Error>)
      requires Valid()
      modifies columns
      ensures Valid()
      ensures raised.None? <==> CleanColumns(old(columns[..])).Success?
      ensures raised.None? ==> columns[..] == CleanColumns(old(columns[..])).value
      ensures raised.Some? ==> raised.value == CleanColumns(old(columns[..])).error
      ensures raised.Some? ==>
        exists k :: 0 <= k < columns.Length &&
          CleanedUpTo(old(columns[..]), columns[..], k) && CleanColumn(old(columns[k])).Failure?
    {
      ghost var before := columns[..];
      var j := 0;
      while j < columns.Length
        invariant 0 <= j <= columns.Length
        invariant CleanedUpTo(before, columns[..], j)
        invariant Valid()
      {
        var col := columns[j];
        if col.dtype == Object {
          var replaced := StrReplace(col.cells);
          if replaced.Failure? {
            CleanColumnsFirstFailure(before, j);
            return Some(replaced.error);
          }
          CleanColumnSpec(col);
          columns[j] := Column(col.dtype, replaced.value);
        }
        j := j + 1;
      }
      CleanedUpToAll(before, columns[..]);
      raised := None;
    }
  }
}
