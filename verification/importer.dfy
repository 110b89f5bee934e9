/** The read direction of the Points module: the `open` and `insert` entry
    points. Both pick a reader by extension, run it, obtain a target
    document, and add one points feature shaped by what the reader reported;
    they differ only in how the target document is chosen, which is a policy
    parameter here. */
module Importer {
  import opened Results
  import opened PointCloud
  import opened Files
  import opened Formats
  import opened Documents

  /** What a reader reports after a successful read: the points, the
      optional intensity, colour and normal channels, the flags that steer
      the import, and the grid size. */
  datatype ReaderReport = ReaderReport(
    points: seq<Vector3>,
    intensities: Option<seq<real>>,
    colors: Option<seq<Color>>,
    normals: Option<seq<Vector3>>,
    hasProperties: bool,
    isStructured: bool,
    width: int,
    height: int)

  /** A reader run on a file of a given format and name: a report, or the
      message of the exception it threw. */
  type Reader = (Format, string) -> Result<ReaderReport, string>

  /** The reader contract: the properties flag is raised exactly when some
      channel or a grid is present, every channel is aligned with the points,
      and a grid covers exactly the points. */
  predicate WellFormed(r: ReaderReport)
  {
    && (r.hasProperties <==> r.intensities.Some? || r.colors.Some? || r.normals.Some? || r.isStructured)
    && (r.intensities.Some? ==> |r.intensities.value| == |r.points|)
    && (r.colors.Some? ==> |r.colors.value| == |r.points|)
    && (r.normals.Some? ==> |r.normals.value| == |r.points|)
    && (r.isStructured ==> r.width * r.height == |r.points|)
  }

  /** Adds a dynamic property when the reader reported the channel. */
  function AttachIf(props: map<string, Property>, name: string, channel: Option<Property>): map<string, Property>
  {
    match channel
    case None => props
    case Some(p) => props[name := p]
  }

  function GreyChannel(c: Option<seq<real>>): Option<Property>
  {
    match c
    case None => None
    case Some(v) => Some(GreyValueList(v))
  }

  function ColorChannel(c: Option<seq<Color>>): Option<Property>
  {
    match c
    case None => None
    case Some(v) => Some(ColorList(v))
  }

  function NormalChannel(c: Option<seq<Vector3>>): Option<Property>
  {
    match c
    case None => None
    case Some(v) => Some(NormalList(v))
  }

  /** The feature the importer builds from a report: a plain points feature
      with no properties when the reader reports none; otherwise a structured
      feature with the reader's width and height, or a scattered custom
      feature, carrying a dynamic property for each channel the reader
      reported. */
  function NewFeature(r: ReaderReport, name: string): (f: DocumentObject)
    ensures f.PointsFeature? && f.objectLabel == name && f.points == r.points
    ensures !r.hasProperties ==> f.kind == PlainFeature && f.properties == map[]
    ensures r.hasProperties && r.isStructured ==> f.kind == StructuredCustom
    ensures r.hasProperties && !r.isStructured ==> f.kind == FeatureCustom
    ensures f.properties.Keys <= ImportedNames
    ensures (WidthName in f.properties <==> r.hasProperties && r.isStructured)
    ensures (HeightName in f.properties <==> r.hasProperties && r.isStructured)
    ensures r.hasProperties && r.isStructured ==> f.properties[WidthName] == IntegerProperty(r.width)
    ensures r.hasProperties && r.isStructured ==> f.properties[HeightName] == IntegerProperty(r.height)
    ensures (IntensityName in f.properties <==> r.hasProperties && r.intensities.Some?)
    ensures (ColorName in f.properties <==> r.hasProperties && r.colors.Some?)
    ensures (NormalName in f.properties <==> r.hasProperties && r.normals.Some?)
    ensures r.hasProperties && r.intensities.Some? ==> f.properties[IntensityName] == GreyValueList(r.intensities.value)
    ensures r.hasProperties && r.colors.Some? ==> f.properties[ColorName] == ColorList(r.colors.value)
    ensures r.hasProperties && r.normals.Some? ==> f.properties[NormalName] == NormalList(r.normals.value)
  {
    if !r.hasProperties then
      PointsFeature(name, PlainFeature, r.points, map[])
    else
      var kind := if r.isStructured then StructuredCustom else FeatureCustom;
      var grid: map<string, Property> :=
        if r.isStructured then map[WidthName := IntegerProperty(r.width), HeightName := IntegerProperty(r.height)]
        else map[];
      var withGreys := AttachIf(grid, IntensityName, GreyChannel(r.intensities));
      var withColors := AttachIf(withGreys, ColorName, ColorChannel(r.colors));
      var withNormals := AttachIf(withColors, NormalName, NormalChannel(r.normals));
      PointsFeature(name, kind, r.points, withNormals)
  }

  /** How the target document is obtained: `open` always creates a new
      document named "Unnamed"; `insert` reuses the document of the given
      name and creates one under that name only when there is none. */
  datatype DocumentPolicy = AlwaysNew | ReuseOrCreate(docName: string)

  /** The name of the document a policy imports into. */
  function TargetName(policy: DocumentPolicy): string
  {
    match policy
    case AlwaysNew => "Unnamed"
    case ReuseOrCreate(name) => name
  }

  /** Whether the policy reuses an existing document: only `insert` does,
      and only when some document already has the requested name. */
  predicate Reuses(app: Application, policy: DocumentPolicy)
  {
    policy.ReuseOrCreate? && exists j :: 0 <= j < |app.documents| && app.documents[j].name == policy.docName
  }

  /** The target document: the first one of the requested name when the
      policy reuses one, leaving the application as it was; otherwise a new
      empty document of the requested name, appended and made active. */
  function SelectDocument(app: Application, policy: DocumentPolicy): (r: (Application, nat))
    requires Valid(app)
    ensures Valid(r.0) && r.1 < |r.0.documents|
    ensures r.0.documents[r.1].name == TargetName(policy)
    ensures Reuses(app, policy) ==>
              && r.0 == app
              && forall j :: 0 <= j < r.1 ==> app.documents[j].name != TargetName(policy)
    ensures !Reuses(app, policy) ==>
              && r.1 == |app.documents|
              && r.0.documents == app.documents + [Document(TargetName(policy), [])]
              && r.0.active == Some(r.1)
  {
    match policy
    case AlwaysNew => NewDocument(app, "Unnamed")
    case ReuseOrCreate(name) =>
      match GetDocument(app, name)
      case Some(k) => (app, k)
      case None => NewDocument(app, name)
  }

  /** The result of a successful import: the application afterwards and the
      position of the document the feature went into. */
  datatype Imported = Imported(app: Application, doc: nat)

  /** Whether extension dispatch and the chosen reader both succeed. */
  predicate ReadSucceeds(file: FileInfo, havePcl: bool, read: Reader)
  {
    Dispatch(file, havePcl).Success? && read(Dispatch(file, havePcl).value, file.fileName).Success?
  }

  /** What the reader reported for the file, once dispatch and the read both
      succeeded. */
  function ReportOf(file: FileInfo, havePcl: bool, read: Reader): ReaderReport
    requires ReadSucceeds(file, havePcl, read)
  {
    read(Dispatch(file, havePcl).value, file.fileName).value
  }

  /** The shared body of `open` and `insert`. Extension dispatch happens
      before the reader runs, the reader runs before a document is obtained,
      and the feature is added to the document fully built. */
  function Import(app: Application, file: FileInfo, havePcl: bool, read: Reader, policy: DocumentPolicy): (r: Result<Imported, Error>)
    requires Valid(app)
    ensures Dispatch(file, havePcl).Failure? ==> r == Failure(Dispatch(file, havePcl).error)
    ensures Dispatch(file, havePcl).Success? && read(Dispatch(file, havePcl).value, file.fileName).Failure? ==>
              r == Failure(ReaderFailed(read(Dispatch(file, havePcl).value, file.fileName).error))
    ensures r.Success? <==> ReadSucceeds(file, havePcl, read)
    ensures r.Success? ==> Valid(r.value.app)
    ensures r.Success? ==> r.value.app.active == (if Reuses(app, policy) then app.active else Some(|app.documents|))
    ensures r.Success? && Reuses(app, policy) ==>
              var d := r.value.doc;
              var f := NewFeature(ReportOf(file, havePcl, read), file.pureName);
              && d < |app.documents|
              && app.documents[d].name == TargetName(policy)
              && (forall j :: 0 <= j < d ==> app.documents[j].name != TargetName(policy))
              && r.value.app.documents == app.documents[d := Document(TargetName(policy), app.documents[d].objects + [f])]
    ensures r.Success? && !Reuses(app, policy) ==>
              var f := NewFeature(ReportOf(file, havePcl, read), file.pureName);
              && r.value.doc == |app.documents|
              && r.value.app.documents == app.documents + [Document(TargetName(policy), [f])]
  {
    match Dispatch(file, havePcl)
    case Failure(e) => Failure(e)
    case Success(format) =>
      match read(format, file.fileName)
      case Failure(msg) => Failure(ReaderFailed(msg))
      case Success(report) =>
        var (app1, doc) := SelectDocument(app, policy);
        var feature := NewFeature(report, file.pureName);
        var app2 := AddObject(app1, doc, feature);
        assert !Reuses(app, policy) ==> app2.documents[doc].objects == [feature];
        Success(Imported(app2, doc))
  }

  /** The `open` entry point: every successful open creates a new document,
      appended after the existing ones, holding just the imported feature. */
  function Open(app: Application, file: FileInfo, havePcl: bool, read: Reader): (r: Result<Imported, Error>)
    requires Valid(app)
    ensures r.Failure? <==> !ReadSucceeds(file, havePcl, read)
    ensures r.Success? ==>
              && r.value.doc == |app.documents|
              && r.value.app.documents == app.documents +
                   [Document("Unnamed", [NewFeature(ReportOf(file, havePcl, read), file.pureName)])]
              && r.value.app.active == Some(|app.documents|)
  {
    Import(app, file, havePcl, read, AlwaysNew)
  }

  /** The `insert` entry point: the feature goes into the document of the
      given name when there is one, leaving the number of documents as it
      was, and into a new document of that name otherwise. */
  function Insert(app: Application, file: FileInfo, docName: string, havePcl: bool, read: Reader): (r: Result<Imported, Error>)
    requires Valid(app)
    ensures r.Failure? <==> !ReadSucceeds(file, havePcl, read)
    ensures r.Success? && GetDocument(app, docName).Some? ==>
              var d := GetDocument(app, docName).value;
              var f := NewFeature(ReportOf(file, havePcl, read), file.pureName);
              && r.value.doc == d
              && r.value.app.documents == app.documents[d := Document(docName, app.documents[d].objects + [f])]
              && r.value.app.active == app.active
    ensures r.Success? && GetDocument(app, docName).None? ==>
              var f := NewFeature(ReportOf(file, havePcl, read), file.pureName);
              && r.value.doc == |app.documents|
              && r.value.app.documents == app.documents + [Document(docName, [f])]
              && r.value.app.active == Some(|app.documents|)
  {
    Import(app, file, havePcl, read, ReuseOrCreate(docName))
  }


  /** Whether two property maps agree under one name. */
  predicate SameAt(m1: map<string, Property>, m2: map<string, Property>, key: string)
  {
    (key in m1 <==> key in m2) && (key in m1 ==> m1[key] == m2[key])
  }

  /** The three channels are attached independently of each other: two
      reports that differ only in their channels yield features of the same
      kind that agree under every name except those of the channels that
      differ. */
  lemma ChannelsIndependent(r1: ReaderReport, r2: ReaderReport, name: string)
    requires r1.(intensities := r2.intensities, colors := r2.colors, normals := r2.normals) == r2
    ensures NewFeature(r1, name).kind == NewFeature(r2, name).kind
    ensures forall key :: key != IntensityName && key != ColorName && key != NormalName ==>
              SameAt(NewFeature(r1, name).properties, NewFeature(r2, name).properties, key)
    ensures r1.intensities == r2.intensities ==>
              SameAt(NewFeature(r1, name).properties, NewFeature(r2, name).properties, IntensityName)
    ensures r1.colors == r2.colors ==>
              SameAt(NewFeature(r1, name).properties, NewFeature(r2, name).properties, ColorName)
    ensures r1.normals == r2.normals ==>
              SameAt(NewFeature(r1, name).properties, NewFeature(r2, name).properties, NormalName)
  {
  }

  /** A report that keeps the reader contract yields a coherent feature of
      the kind its grid flag names, and loses no channel: every reported
      channel and the grid size are readable back under their names. */
  lemma WellFormedImportLosesNothing(r: ReaderReport, name: string)
    requires WellFormed(r)
    ensures Coherent(NewFeature(r, name))
    ensures IntegerNamed(NewFeature(r, name).properties, WidthName) == (if r.isStructured then Some(r.width) else None)
    ensures IntegerNamed(NewFeature(r, name).properties, HeightName) == (if r.isStructured then Some(r.height) else None)
    ensures NewFeature(r, name).kind == (if r.isStructured then StructuredCustom
                                         else if r.hasProperties then FeatureCustom else PlainFeature)
    ensures GreysNamed(NewFeature(r, name).properties, IntensityName) == r.intensities
    ensures ColorsNamed(NewFeature(r, name).properties, ColorName) == r.colors
    ensures NormalsNamed(NewFeature(r, name).properties, NormalName) == r.normals
  {
  }

  /** When a reader clears the properties flag, the plain path keeps only
      the points: any channel or grid the reader still reports is dropped. */
  lemma PlainPathKeepsOnlyPoints(r: ReaderReport, name: string)
    requires !r.hasProperties
    ensures NewFeature(r, name) == PointsFeature(name, PlainFeature, r.points, map[])
  {
  }
}
