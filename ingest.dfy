/** `parse_file`: choose a reader by the upload's file-name suffix, read the
    table, then clean it in place. */
module Ingest {
  import opened Wrappers
  import opened Frames
  import opened Cleaning
  import opened Tables

  /** An uploaded file: its name and its bytes. */
  datatype Upload = Upload(name: string, content: seq<bv8>)

  /** A pandas reader (`read_excel`, or `read_csv` with `thousands=','`): the
      decoding itself is outside the model, it either yields a table or raises. */
  type Reader = seq<bv8> -> Result<Frame, Error>

  /** What the pandas readers promise about the tables they return. */
  ghost predicate ReaderContract(read: Reader) {
    forall bytes :: read(bytes).Success? ==> WellFormed(read(bytes).value)
  }

  datatype Format = Excel | Csv | NotSupported

  /** Python's `str.endswith`: case-sensitive comparison of the last characters. */
  predicate EndsWith(s: string, suffix: string) {
    |suffix| <= |s| && s[|s| - |suffix|..] == suffix
  }

  /** Characters at equal distance from the end agree with the suffix. */
  lemma EndsWithAt(s: string, suffix: string, k: nat)
    requires EndsWith(s, suffix) && k < |suffix|
    ensures s[|s| - 1 - k] == suffix[|suffix| - 1 - k]
  {
    assert s[|s| - |suffix|..][|suffix| - 1 - k] == s[|s| - 1 - k];
  }

  /** A name cannot end in two suffixes that differ at the same distance from the end. */
  lemma SuffixesExclude(s: string, a: string, b: string, k: nat)
    requires EndsWith(s, a) && k < |a| && k < |b|
    requires a[|a| - 1 - k] != b[|b| - 1 - k]
    ensures !EndsWith(s, b)
  {
    EndsWithAt(s, a, k);
    if EndsWith(s, b) {
      EndsWithAt(s, b, k);
    }
  }

  /** The branch `parse_file` takes. The `.xlsx` test comes first, but no name
      ends in both suffixes, so each format corresponds to its own suffix. */
  function Dispatch(name: string): (f: Format)
    ensures f == Excel <==> EndsWith(name, ".xlsx")
    ensures f == Csv <==> EndsWith(name, ".csv")
    ensures f == NotSupported <==> !EndsWith(name, ".xlsx") && !EndsWith(name, ".csv")
  {
    if EndsWith(name, ".xlsx") then
      assert !EndsWith(name, ".csv") by { SuffixesExclude(name, ".xlsx", ".csv", 0); }
      Excel
    else if EndsWith(name, ".csv") then Csv
    else NotSupported
  }

  /** Both `.xlsx` and `.csv` have `s` as their second-to-last character, so a
      name whose suffix has anything else there reaches neither reader. */
  lemma NeitherReader(stem: string, suffix: string)
    requires 2 <= |suffix| && suffix[|suffix| - 2] != 's'
    ensures Dispatch(stem + suffix) == NotSupported
  {
    var name := stem + suffix;
    assert EndsWith(name, suffix) by {
      assert name[|name| - |suffix|..] == suffix;
    }
    var xlsx, csv := ".xlsx", ".csv";
    assert xlsx[3] == 's' && csv[2] == 's';
    SuffixesExclude(name, suffix, xlsx, 1);
    SuffixesExclude(name, suffix, csv, 1);
  }

  /** The upload widget offers `.pdf` and `.docx`, and it matches extensions
      without regard to case, but `parse_file` has no branch for any of these. */
  lemma OtherSuffixesUnsupported(stem: string)
    ensures Dispatch(stem + ".pdf") == NotSupported
    ensures Dispatch(stem + ".docx") == NotSupported
    ensures Dispatch(stem + ".CSV") == NotSupported
    ensures Dispatch(stem + ".XLSX") == NotSupported
  {
    NeitherReader(stem, ".pdf");
    NeitherReader(stem, ".docx");
    NeitherReader(stem, ".CSV");
    NeitherReader(stem, ".XLSX");
  }

  /** The outcome of `parse_file`: no table (after reporting the unsupported
      type), an exception that propagates, or the cleaned table. */
  datatype ParseResult = NoTable | Raised(error: Error) | Parsed(frame: Frame)

  const UnsupportedMessage := "Unsupported file type"

  /** The reader the upload's suffix selects, applied to its bytes. */
  function ReadUpload(file: Upload, readExcel: Reader, readCsv: Reader): Result<Frame, Error>
    requires Dispatch(file.name) != NotSupported
  {
    if Dispatch(file.name) == Excel then readExcel(file.content) else readCsv(file.content)
  }

  /** The value `parse_file` produces, as a function of the upload and the readers. */
  function Parse(file: Upload, readExcel: Reader, readCsv: Reader): ParseResult {
    if Dispatch(file.name) == NotSupported then NoTable
    else match ReadUpload(file, readExcel, readCsv)
      case Failure(e) => Raised(e)
      case Success(raw) =>
        match CleanColumns(raw.columns)
        case Failure(e) => Raised(e)
        case Success(cols) => Parsed(Frame(raw.names, cols, raw.rows))
  }

  /** Unsupported names give no table; other names give the reader's table,
      cleaned, with its labels and row count, or the first error raised. */
  lemma ParseSpec(file: Upload, readExcel: Reader, readCsv: Reader)
    requires ReaderContract(readExcel) && ReaderContract(readCsv)
    ensures Parse(file, readExcel, readCsv) == NoTable <==> Dispatch(file.name) == NotSupported
    ensures Parse(file, readExcel, readCsv).Parsed? ==>
      var raw := ReadUpload(file, readExcel, readCsv);
      var f := Parse(file, readExcel, readCsv).frame;
      raw.Success? && WellFormed(f) && f.names == raw.value.names && f.rows == raw.value.rows &&
      CleanColumns(f.columns) == Success(f.columns) &&
      forall j, i :: 0 <= j < |f.columns| && 0 <= i < f.rows ==>
        (f.columns[j].dtype == Object && f.columns[j].cells[i].Text? ==>
          AllAllowed(f.columns[j].cells[i].s))
  {
    if Parse(file, readExcel, readCsv).Parsed? {
      var raw := ReadUpload(file, readExcel, readCsv).value;
      assert WellFormed(raw);
      CleanKeepsWellFormed(raw);
      CleanColumnsShape(raw.columns);
      CleanColumnsIdempotent(raw.columns);
    }
  }

  /** `parse_file(uploaded_file)`: reports "Unsupported file type" exactly once
      and returns None for an unknown suffix; otherwise reads the file, cleans
      the table in place and returns it. Errors raised while reading or
      cleaning propagate to the caller. */
  method ParseFile(file: Upload, readExcel: Reader, readCsv: Reader)
    returns (df: DataFrame?, messages: seq<string>, raised: Option<Error>)
    requires ReaderContract(readExcel) && ReaderContract(readCsv)
    ensures messages == if Dispatch(file.name) == NotSupported then [UnsupportedMessage] else []
    ensures raised == if Parse(file, readExcel, readCsv).Raised? then Some(Parse(file, readExcel, readCsv).error) else None
    ensures df == null <==> !Parse(file, readExcel, readCsv).Parsed?
    ensures df != null ==> fresh(df.columns) && df.Valid() && df.Snapshot() == Parse(file, readExcel, readCsv).frame
  {
    messages, raised := [], None;
    var read;
    if EndsWith(file.name, ".xlsx") {
      read := readExcel(file.content);
    } else if EndsWith(file.name, ".csv") {
      read := readCsv(file.content);
    } else {
      messages := [UnsupportedMessage];
      return null, messages, None;
    }
    if read.Failure? {
      return null, messages, Some(read.error);
    }
    df := new DataFrame(read.value);
    raised := df.CleanColumnValues();
    if raised.Some? {
      df := null;
    }
  }

  /** Uploading `report.pdf` (or any `.pdf`) yields no table, whatever the readers would do. */
  lemma PdfUploadYieldsNoTable(stem: string, content: seq<bv8>, readExcel: Reader, readCsv: Reader)
    ensures Parse(Upload(stem + ".pdf", content), readExcel, readCsv) == NoTable
  {
    OtherSuffixesUnsupported(stem);
  }
}
