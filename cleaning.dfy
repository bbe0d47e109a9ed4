/** The character filter of `clean_column_values` and its lifting to columns
    and tables, as pure functions with the lemmas that say what they do. */
module Cleaning {
  import opened Wrappers
  import opened Sequences
  import opened Frames

  // ---------------------------------------------------------------------
  // The regular expression [^a-zA-Z0-9\s]
  // ---------------------------------------------------------------------

  predicate IsAsciiLetter(c: char) {
    'a' <= c <= 'z' || 'A' <= c <= 'Z'
  }

  predicate IsAsciiDigit(c: char) {
    '0' <= c <= '9'
  }

  /** Python's `\s` on a text pattern: the characters `str.isspace` accepts. */
  predicate IsPythonWhitespace(c: char) {
    '\U{9}' <= c <= '\U{D}' || '\U{1C}' <= c <= '\U{20}' ||
    c == '\U{85}' || c == '\U{A0}' || c == '\U{1680}' ||
    '\U{2000}' <= c <= '\U{200A}' || c == '\U{2028}' || c == '\U{2029}' ||
    c == '\U{202F}' || c == '\U{205F}' || c == '\U{3000}'
  }

  /** A character the pattern does not match, so it survives the substitution. */
  predicate IsAllowed(c: char) {
    IsAsciiLetter(c) || IsAsciiDigit(c) || IsPythonWhitespace(c)
  }

  predicate AllAllowed(s: string) {
    forall i :: 0 <= i < |s| ==> IsAllowed(s[i])
  }

  /** `re.sub('[^a-zA-Z0-9\s]', '', s)`: every character outside the class is
      replaced by the empty string, one match at a time. */
  function CleanCell(s: string): (r: string)
    ensures AllAllowed(r)
    ensures |r| <= |s|
  {
    if s == [] then []
    else (if IsAllowed(s[0]) then [s[0]] else []) + CleanCell(s[1..])
  }

  /** Kept characters stay in their original order. */
  lemma {:induction false} CleanCellIsSubsequence(s: string)
    ensures IsSubsequence(CleanCell(s), s)
  {
    if s != [] {
      CleanCellIsSubsequence(s[1..]);
      var r := CleanCell(s);
      if IsAllowed(s[0]) {
        assert r[0] == s[0] && r[1..] == CleanCell(s[1..]);
      } else {
        assert r == CleanCell(s[1..]);
      }
    }
  }

  /** Every allowed character is kept as often as it occurs; no other character is. */
  lemma {:induction false} CleanCellCounts(s: string)
    ensures forall c :: multiset(CleanCell(s))[c] == if IsAllowed(c) then multiset(s)[c] else 0
  {
    if s != [] {
      CleanCellCounts(s[1..]);
      assert s == [s[0]] + s[1..];
      var head := if IsAllowed(s[0]) then [s[0]] else [];
      assert CleanCell(s) == head + CleanCell(s[1..]);
      assert multiset(CleanCell(s)) == multiset(head) + multiset(CleanCell(s[1..]));
      assert multiset(s) == multiset([s[0]]) + multiset(s[1..]);
    }
  }

  /** A cell with nothing to remove is returned unchanged. */
  lemma {:induction false} CleanCellKeepsClean(s: string)
    requires AllAllowed(s)
    ensures CleanCell(s) == s
  {
    if s != [] {
      CleanCellKeepsClean(s[1..]);
      assert s == [s[0]] + s[1..];
    }
  }

  /** A cell is returned unchanged exactly when it holds only allowed characters. */
  lemma {:induction false} CleanCellFixpoints(s: string)
    ensures CleanCell(s) == s <==> AllAllowed(s)
  {
    if AllAllowed(s) {
      CleanCellKeepsClean(s);
    }
  }

  /** Cleaning a cleaned cell changes nothing. */
  lemma CleanCellIdempotent(s: string)
    ensures CleanCell(CleanCell(s)) == CleanCell(s)
  {
    CleanCellKeepsClean(CleanCell(s));
  }

  /** The filter is determined by its three properties: any order-preserving
      selection of allowed characters that keeps every allowed character of
      `s` is the cleaned cell. */
  lemma {:induction false} CleanCellUnique(r: string, s: string)
    requires IsSubsequence(r, s)
    requires AllAllowed(r)
    requires forall c :: IsAllowed(c) ==> multiset(r)[c] == multiset(s)[c]
    ensures r == CleanCell(s)
    decreases |s|
  {
    if s == [] {
    } else {
      var x := s[0];
      assert s == [x] + s[1..];
      assert multiset(s) == multiset([x]) + multiset(s[1..]);
      if !IsAllowed(x) {
        if r != [] {
          assert IsAllowed(r[0]);
        }
        forall c | IsAllowed(c) ensures multiset(r)[c] == multiset(s[1..])[c] {
        }
        CleanCellUnique(r, s[1..]);
      } else if r != [] && IsSubsequence(r, s[1..]) {
        SubsequenceMultiset(r, s[1..]);
        assert false;
      } else {
        assert multiset(r)[x] >= 1;
        assert r != [];
        assert r[0] == x && IsSubsequence(r[1..], s[1..]);
        assert r == [x] + r[1..];
        assert multiset(r) == multiset([x]) + multiset(r[1..]);
        forall c | IsAllowed(c) ensures multiset(r[1..])[c] == multiset(s[1..])[c] {
        }
        CleanCellUnique(r[1..], s[1..]);
      }
    }
  }

  // ---------------------------------------------------------------------
  // Columns: df[col].str.replace(...)
  // ---------------------------------------------------------------------

  predicate HasText(cells: seq<Cell>) {
    exists i :: 0 <= i < |cells| && cells[i].Text?
  }

  predicate AllMissing(cells: seq<Cell>) {
    forall i :: 0 <= i < |cells| ==> cells[i].Missing?
  }

  /** The `.str` accessor accepts a column holding at least one string, or
      nothing but missing values. */
  predicate StrAccessorAccepts(cells: seq<Cell>) {
    HasText(cells) || AllMissing(cells)
  }

  /** `.str.replace` on one value: strings are filtered, missing values stay
      missing and any other value becomes missing. */
  function ReplaceInCell(c: Cell): Cell {
    match c
    case Text(s) => Text(CleanCell(s))
    case _ => Missing
  }

  /** `Series.str.replace('[^a-zA-Z0-9\s]', '', regex=True)` on the cells of a column. */
  function StrReplace(cells: seq<Cell>): Result<seq<Cell>, Error> {
    if !StrAccessorAccepts(cells) then Failure(StrAccessorError)
    else Success(seq(|cells|, i requires 0 <= i < |cells| => ReplaceInCell(cells[i])))
  }

  /** One pass of the loop body of `clean_column_values`: a text-typed column
      is replaced by its filtered cells, any other column is left as it is. */
  function CleanColumn(col: Column): Result<Column, Error> {
    if col.dtype != Object then Success(col)
    else match StrReplace(col.cells)
      case Failure(e) => Failure(e)
      case Success(cells) => Success(Column(Object, cells))
  }

  /** How cleaning relates one cell of a column to the same cell afterwards. */
  predicate CellCleaned(dtype: Dtype, before: Cell, after: Cell) {
    if dtype != Object then after == before
    else match before
      case Missing => after == Missing
      case Text(s) => after == Text(CleanCell(s))
      case NonText(_) => after == Missing
  }

  /** What a successful column clean does, cell by cell, and when it fails. */
  lemma CleanColumnSpec(col: Column)
    ensures CleanColumn(col).Failure? <==> col.dtype == Object && !StrAccessorAccepts(col.cells)
    ensures CleanColumn(col).Failure? ==> CleanColumn(col).error == StrAccessorError
    ensures CleanColumn(col).Success? ==>
      var after := CleanColumn(col).value;
      after.dtype == col.dtype && |after.cells| == |col.cells| &&
      forall i :: 0 <= i < |col.cells| ==> CellCleaned(col.dtype, col.cells[i], after.cells[i])
  {
  }

  /** `clean_column_values` as a whole: columns are cleaned left to right and
      the first failure ends the run. */
  function CleanColumns(cols: seq<Column>): Result<seq<Column>, Error> {
    if cols == [] then Success([])
    else match CleanColumn(cols[0])
      case Failure(e) => Failure(e)
      case Success(c) =>
        match CleanColumns(cols[1..])
        case Failure(e) => Failure(e)
        case Success(rest) => Success([c] + rest)
  }

  /** The columns before `k` have been cleaned and the rest are untouched:
      the state of the table after `k` rounds of the loop. */
  predicate CleanedUpTo(before: seq<Column>, after: seq<Column>, k: nat) {
    |after| == |before| && k <= |before| &&
    (forall i :: 0 <= i < k ==>
      CleanColumn(before[i]).Success? && after[i] == CleanColumn(before[i]).value) &&
    (forall i :: k <= i < |before| ==> after[i] == before[i])
  }

  /** The table succeeds exactly when every column does, and then each column
      is that column's own clean. */
  lemma {:induction false} CleanColumnsPointwise(cols: seq<Column>)
    ensures CleanColumns(cols).Success? <==> forall j :: 0 <= j < |cols| ==> CleanColumn(cols[j]).Success?
    ensures CleanColumns(cols).Success? ==>
      |CleanColumns(cols).value| == |cols| &&
      forall j :: 0 <= j < |cols| ==> CleanColumns(cols).value[j] == CleanColumn(cols[j]).value
  {
    if cols != [] {
      CleanColumnsPointwise(cols[1..]);
      assert forall j :: 1 <= j < |cols| ==> cols[j] == cols[1..][j - 1];
    }
  }

  /** A failing table reports the error of its first failing column. */
  lemma {:induction false} CleanColumnsFirstFailure(cols: seq<Column>, k: nat)
    requires k < |cols|
    requires forall j :: 0 <= j < k ==> CleanColumn(cols[j]).Success?
    requires CleanColumn(cols[k]).Failure?
    ensures CleanColumns(cols) == Failure(CleanColumn(cols[k]).error)
  {
    if k > 0 {
      assert forall j :: 0 <= j < k - 1 ==> cols[1..][j] == cols[j + 1];
      CleanColumnsFirstFailure(cols[1..], k - 1);
    }
  }

  /** After every round of the loop, the table is the cleaned table. */
  lemma CleanedUpToAll(before: seq<Column>, after: seq<Column>)
    requires CleanedUpTo(before, after, |before|)
    ensures CleanColumns(before) == Success(after)
  {
    CleanColumnsPointwise(before);
    assert CleanColumns(before).Success?;
    var v := CleanColumns(before).value;
    assert |v| == |after|;
    assert forall j :: 0 <= j < |v| ==> v[j] == after[j];
    assert v == after;
  }

  /** Cleaning keeps the table's shape: the same number of columns, each with
      its dtype and length; non-text columns are untouched, missing cells stay
      missing, strings stay strings, and every string left in a text column
      holds only letters, digits and whitespace. */
  lemma {:induction false} CleanColumnsShape(cols: seq<Column>)
    requires CleanColumns(cols).Success?
    ensures |CleanColumns(cols).value| == |cols|
    ensures forall j :: 0 <= j < |cols| ==>
      var after := CleanColumns(cols).value[j];
      after.dtype == cols[j].dtype && |after.cells| == |cols[j].cells| &&
      (cols[j].dtype != Object ==> after == cols[j]) &&
      forall i :: 0 <= i < |after.cells| ==>
        CellCleaned(cols[j].dtype, cols[j].cells[i], after.cells[i]) &&
        (cols[j].cells[i].Missing? ==> after.cells[i].Missing?) &&
        (cols[j].cells[i].Text? ==> after.cells[i].Text?) &&
        (after.dtype == Object && after.cells[i].Text? ==> AllAllowed(after.cells[i].s))
  {
    CleanColumnsPointwise(cols);
    forall j | 0 <= j < |cols| {
      CleanColumnSpec(cols[j]);
    }
  }

  /** A table fails to clean exactly when some text-typed column holds
      values but no strings. */
  lemma {:induction false} CleanColumnsFails(cols: seq<Column>)
    ensures CleanColumns(cols).Failure? <==>
      exists j :: 0 <= j < |cols| && cols[j].dtype == Object && !StrAccessorAccepts(cols[j].cells)
    ensures CleanColumns(cols).Failure? ==> CleanColumns(cols).error == StrAccessorError
  {
    if cols != [] {
      CleanColumnSpec(cols[0]);
      CleanColumnsFails(cols[1..]);
      assert forall j :: 1 <= j < |cols| ==> cols[j] == cols[1..][j - 1];
      if exists j :: 1 <= j < |cols| && cols[j].dtype == Object && !StrAccessorAccepts(cols[j].cells) {
        var j :| 1 <= j < |cols| && cols[j].dtype == Object && !StrAccessorAccepts(cols[j].cells);
        assert cols[1..][j - 1] == cols[j];
      }
    }
  }

  /** Cleaning one column twice gives the same column as cleaning it once. */
  lemma CleanColumnIdempotent(col: Column)
    requires CleanColumn(col).Success?
    ensures CleanColumn(CleanColumn(col).value) == CleanColumn(col)
  {
    var after := CleanColumn(col).value;
    if col.dtype == Object {
      CleanColumnSpec(col);
      if HasText(col.cells) {
        var i :| 0 <= i < |col.cells| && col.cells[i].Text?;
        assert after.cells[i].Text?;
      }
      assert StrAccessorAccepts(after.cells);
      forall i | 0 <= i < |after.cells|
        ensures ReplaceInCell(after.cells[i]) == after.cells[i]
      {
        if col.cells[i].Text? {
          CleanCellIdempotent(col.cells[i].s);
        }
      }
      assert StrReplace(after.cells).value == after.cells;
    }
  }

  /** Cleaning an already cleaned table returns it unchanged. */
  lemma CleanColumnsIdempotent(cols: seq<Column>)
    requires CleanColumns(cols).Success?
    ensures CleanColumns(CleanColumns(cols).value) == CleanColumns(cols)
  {
    var after := CleanColumns(cols).value;
    CleanColumnsPointwise(cols);
    forall j | 0 <= j < |after|
      ensures CleanColumn(after[j]).Success? && CleanColumn(after[j]).value == after[j]
    {
      CleanColumnIdempotent(cols[j]);
    }
    assert CleanedUpTo(after, after, |after|);
    CleanedUpToAll(after, after);
  }

  /** Cleaning keeps a table well formed, with the same labels and rows. */
  lemma CleanKeepsWellFormed(f: Frame)
    requires WellFormed(f)
    requires CleanColumns(f.columns).Success?
    ensures WellFormed(Frame(f.names, CleanColumns(f.columns).value, f.rows))
  {
    CleanColumnsShape(f.columns);
  }
}
