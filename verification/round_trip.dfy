/** How the read and write directions fit together: what a reader reports
    is exactly what a writer receives when the imported feature is exported
    again. */
module RoundTrip {
  import opened Results
  import opened PointCloud
  import opened Files
  import opened Formats
  import opened Documents
  import opened Importer
  import opened Exporter
  import opened Showing

  /** The bundle that carries exactly what a report carries: the grid size
      when the reader reports a structured cloud, and the reported channels. */
  function ReportBundle(r: ReaderReport): Bundle
  {
    Bundle(
      r.points,
      if r.isStructured then Some(r.width) else None,
      if r.isStructured then Some(r.height) else None,
      r.intensities,
      r.colors,
      r.normals)
  }

  /** A report that keeps the reader contract survives import and export
      unchanged: the writer receives the points, the grid size exactly when
      the cloud is structured, and exactly the reported channels. */
  lemma ImportThenBundle(r: ReaderReport, name: string)
    requires WellFormed(r)
    ensures BundleOf(NewFeature(r, name)) == ReportBundle(r)
  {
  }

  /** On the plain path the writer receives the points and nothing else. */
  lemma PlainImportThenBundle(r: ReaderReport, name: string)
    requires !r.hasProperties
    ensures BundleOf(NewFeature(r, name)) == Bundle(r.points, None, None, None, None, None)
  {
  }

  /** End to end: open a file, then export the feature it created to a file
      whose extension selects a writer. The writer receives the bundle that
      carries exactly what the reader reported, and nothing is printed. */
  lemma OpenThenExport(app: Application, file: FileInfo, havePcl: bool, read: Reader,
                       out: FileInfo, write: Writer)
    requires Valid(app)
    requires Open(app, file, havePcl, read).Success?
    requires WellFormed(ReportOf(file, havePcl, read))
    requires Dispatch(out, havePcl).Success?
    requires write(Dispatch(out, havePcl).value, out.fileName,
                   ReportBundle(ReportOf(file, havePcl, read))).None?
    ensures var imported := Open(app, file, havePcl, read).value;
            var feature := imported.app.documents[imported.doc].objects[0];
            ExportOutcome([Object(feature)], out, havePcl, write)
              == Success(ExportReport([], Some(WriteJob(Dispatch(out, havePcl).value, out.fileName,
                   ReportBundle(ReportOf(file, havePcl, read))))))
  {
  }

  /** A shown cloud exports as its points alone. */
  lemma ShowThenBundle(app: Application, cloud: seq<Vector3>)
    requires Valid(app)
    ensures var (app', doc) := Show(app, cloud);
            var objects := app'.documents[doc].objects;
            BundleOf(objects[|objects| - 1]) == Bundle(cloud, None, None, None, None, None)
  {
  }
}
