/** The page script of the dashboard: take the upload, parse it, show the
    table, then issue the render calls the widgets ask for. The Streamlit
    widgets are inputs: `interact` gives the widget values the user chooses
    for a table with the given column labels. */
module Dashboard {
  import opened Wrappers
  import opened Frames
  import opened Tables
  import opened Ingest
  import opened Plots

  /** One pass over the page. No upload: nothing happens. An unsupported file
      name: one "Unsupported file type" message and nothing else. An error
      while reading or cleaning: it propagates and the page stops. Otherwise
      the cleaned table is shown and the plot plan for its columns follows. */
  method RunDashboard(upload: Option<Upload>, readExcel: Reader, readCsv: Reader, interact: seq<string> -> Widgets)
    returns (messages: seq<string>, raised: Option<Error>, shown: Option<Frame>, plan: seq<PlotRequest>)
    requires ReaderContract(readExcel) && ReaderContract(readCsv)
    requires forall names :: ValidWidgets(names, interact(names))
    ensures upload.None? ==> messages == [] && raised.None? && shown.None?
    ensures upload.Some? ==>
      var p := Parse(upload.value, readExcel, readCsv);
      messages == (if p.NoTable? then [UnsupportedMessage] else []) &&
      raised == (if p.Raised? then Some(p.error) else None) &&
      shown == (if p.Parsed? then Some(p.frame) else None)
    ensures shown.None? ==> plan == []
    ensures shown.Some? ==> plan == PlotPlan(shown.value.names, interact(shown.value.names))
  {
    messages, raised, shown, plan := [], None, None, [];
    if upload.Some? {
      ParseSpec(upload.value, readExcel, readCsv);
      var df;
      df, messages, raised := ParseFile(upload.value, readExcel, readCsv);
      if df != null {
        shown := Some(df.Snapshot());
        var w := interact(df.names);
        plan := RenderPlots(df.names, w);
      }
    }
  }
}
