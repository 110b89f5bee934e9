/** The write direction of the Points module: the `export` entry point.
    It walks a sequence of items, reports every document object that is not
    a points feature, and writes the first points feature it meets, with
    whichever grid and channel properties that feature carries. */
module Exporter {
  import opened Results
  import opened PointCloud
  import opened Files
  import opened Formats

  /** An element of the sequence handed to `export`: a document object, or
      anything else. */
  datatype Item = Foreign | Object(obj: DocumentObject)

  /** A writer run on a format, a file name and a bundle: None when the file
      was written, the message of the exception it threw otherwise. */
  type Writer = (Format, string, Bundle) -> Option<string>

  /** What a writer was asked to write. */
  datatype WriteJob = WriteJob(format: Format, fileName: string, bundle: Bundle)

  /** The outcome of a successful export: the diagnostics printed, in order,
      and the write that was done, if any. */
  datatype ExportReport = ExportReport(messages: seq<string>, job: Option<WriteJob>)

  /** The diagnostic printed for a document object that is not a points
      feature. */
  function NotAPointObject(objectLabel: string): string
  {
    "'" + objectLabel + "' is not a point object, export will be ignored.\n"
  }

  /** Whether the item qualifies for export: a document object whose type
      derives from the points feature type. */
  predicate Qualifies(item: Item)
  {
    item.Object? && item.obj.PointsFeature?
  }

  /** The position of the first qualifying item. */
  function FirstQualifying(items: seq<Item>): (k: Option<nat>)
    ensures k.Some? ==> k.value < |items| && Qualifies(items[k.value])
    ensures k.Some? ==> forall j :: 0 <= j < k.value ==> !Qualifies(items[j])
    ensures k.None? ==> forall j :: 0 <= j < |items| ==> !Qualifies(items[j])
  {
    if items == [] then None
    else if Qualifies(items[0]) then Some(0)
    else match FirstQualifying(items[1..])
      case None => None
      case Some(k) => Some(k + 1)
  }

  /** A document object that is not a points feature: the items the walk
      reports. */
  predicate Reported(item: Item)
  {
    item.Object? && item.obj.OtherObject?
  }

  /** How many items the walk looks at: up to and excluding the first
      qualifying item, or all of them. */
  function WalkLength(items: seq<Item>): (n: nat)
    ensures n <= |items|
  {
    match FirstQualifying(items)
    case None => |items|
    case Some(k) => k
  }

  /** The diagnostics printed while walking `items` up to the first
      qualifying item: one per non-qualifying document object, none for
      other items. */
  function Diagnostics(items: seq<Item>): (r: seq<string>)
    ensures |r| <= WalkLength(items)
  {
    if items == [] then []
    else match items[0]
      case Foreign => Diagnostics(items[1..])
      case Object(o) =>
        if o.PointsFeature? then [] else [NotAPointObject(o.objectLabel)] + Diagnostics(items[1..])
  }

  /** The walk over a non-empty sequence looks at its head and then at as
      much of its tail as the tail's own walk does, unless the head
      qualifies. */
  lemma WalkLengthCons(items: seq<Item>)
    requires items != []
    ensures WalkLength(items) == if Qualifies(items[0]) then 0 else WalkLength(items[1..]) + 1
  {
  }

  /** Every diagnostic names a reported object the walk passed, and every
      such object is named by a diagnostic. */
  lemma {:induction false} DiagnosticsNameReportedObjects(items: seq<Item>)
    ensures forall i :: 0 <= i < |Diagnostics(items)| ==>
              exists j :: 0 <= j < WalkLength(items) && Reported(items[j])
                          && Diagnostics(items)[i] == NotAPointObject(items[j].obj.objectLabel)
    ensures forall j :: 0 <= j < WalkLength(items) && Reported(items[j]) ==>
              NotAPointObject(items[j].obj.objectLabel) in Diagnostics(items)
  {
    if items != [] {
      WalkLengthCons(items);
      if !Qualifies(items[0]) {
        var tail := items[1..];
        DiagnosticsNameReportedObjects(tail);
        var d := Diagnostics(items);
        var offset := if Reported(items[0]) then 1 else 0;
        assert d == (if Reported(items[0]) then [NotAPointObject(items[0].obj.objectLabel)] else []) + Diagnostics(tail);
        forall i | 0 <= i < |d|
          ensures exists j :: 0 <= j < WalkLength(items) && Reported(items[j])
                              && d[i] == NotAPointObject(items[j].obj.objectLabel)
        {
          if i < offset {
            assert 0 < WalkLength(items) && Reported(items[0]) && d[i] == NotAPointObject(items[0].obj.objectLabel);
          } else {
            var j :| 0 <= j < WalkLength(tail) && Reported(tail[j])
                     && Diagnostics(tail)[i - offset] == NotAPointObject(tail[j].obj.objectLabel);
            assert items[j + 1] == tail[j];
            assert d[i] == NotAPointObject(items[j + 1].obj.objectLabel);
          }
        }
        forall j | 1 <= j < WalkLength(items) && Reported(items[j])
          ensures NotAPointObject(items[j].obj.objectLabel) in d
        {
          assert tail[j - 1] == items[j];
        }
      } else {
        assert Diagnostics(items) == [];
      }
    } else {
      assert Diagnostics(items) == [];
    }
  }

  /** The bundle handed to the writer for a points feature: its points, and
      each of width, height, intensities, colours and normals exactly when
      the feature has a property of that name and of the matching type. */
  function BundleOf(f: DocumentObject): (b: Bundle)
    requires f.PointsFeature?
    ensures b.points == f.points
    ensures b.width.Some? <==> WidthName in f.properties && f.properties[WidthName].IntegerProperty?
    ensures b.height.Some? <==> HeightName in f.properties && f.properties[HeightName].IntegerProperty?
    ensures b.intensities.Some? <==> IntensityName in f.properties && f.properties[IntensityName].GreyValueList?
    ensures b.colors.Some? <==> ColorName in f.properties && f.properties[ColorName].ColorList?
    ensures b.normals.Some? <==> NormalName in f.properties && f.properties[NormalName].NormalList?
    ensures b.width.Some? ==> f.properties[WidthName] == IntegerProperty(b.width.value)
    ensures b.height.Some? ==> f.properties[HeightName] == IntegerProperty(b.height.value)
    ensures b.intensities.Some? ==> f.properties[IntensityName] == GreyValueList(b.intensities.value)
    ensures b.colors.Some? ==> f.properties[ColorName] == ColorList(b.colors.value)
    ensures b.normals.Some? ==> f.properties[NormalName] == NormalList(b.normals.value)
  {
    Bundle(
      f.points,
      IntegerNamed(f.properties, WidthName),
      IntegerNamed(f.properties, HeightName),
      GreysNamed(f.properties, IntensityName),
      ColorsNamed(f.properties, ColorName),
      NormalsNamed(f.properties, NormalName))
  }

  /** The export decision as a whole. An empty extension is rejected before
      anything else. Without a qualifying item nothing is written and the
      call succeeds with its diagnostics, whatever the extension. With one,
      the extension must select a writer, and the writer runs once on the
      first qualifying feature's bundle. */
  function ExportOutcome(items: seq<Item>, file: FileInfo, havePcl: bool, write: Writer): (r: Result<ExportReport, Error>)
    ensures file.extension == "" ==> r == Failure(NoFileExtension)
    ensures file.extension != "" && FirstQualifying(items).None? ==> r == Success(ExportReport(Diagnostics(items), None))
    ensures file.extension != "" && FirstQualifying(items).Some? ==>
              var b := BundleOf(items[FirstQualifying(items).value].obj);
              match Dispatch(file, havePcl)
              case Failure(_) => r == Failure(UnsupportedFileExtension)
              case Success(format) =>
                match write(format, file.fileName, b)
                case Some(m) => r == Failure(WriterFailed(m))
                case None => r == Success(ExportReport(Diagnostics(items), Some(WriteJob(format, file.fileName, b))))
  {
    if file.extension == "" then Failure(NoFileExtension)
    else match FirstQualifying(items)
      case None => Success(ExportReport(Diagnostics(items), None))
      case Some(k) =>
        match Dispatch(file, havePcl)
        case Failure(e) => Failure(e)
        case Success(format) =>
          var bundle := BundleOf(items[k].obj);
          match write(format, file.fileName, bundle)
          case Some(msg) => Failure(WriterFailed(msg))
          case None => Success(ExportReport(Diagnostics(items), Some(WriteJob(format, file.fileName, bundle))))
  }

  /** The `export` entry point as the loop it is: skip foreign items, print
      a diagnostic for each other non-qualifying object, and stop after
      writing the first qualifying feature. */
  method Export(items: seq<Item>, file: FileInfo, havePcl: bool, write: Writer) returns (r: Result<ExportReport, Error>)
    ensures r == ExportOutcome(items, file, havePcl, write)
  {
    if file.extension == "" {
      return Failure(NoFileExtension);
    }
    var messages: seq<string> := [];
    var i := 0;
    while i < |items|
      invariant 0 <= i <= |items|
      invariant forall j :: 0 <= j < i ==> !Qualifies(items[j])
      invariant Diagnostics(items) == messages + Diagnostics(items[i..])
    {
      match items[i] {
        case Foreign =>
        case Object(o) =>
          if o.PointsFeature? {
            assert Diagnostics(items[i..]) == [];
            var format := Dispatch(file, havePcl);
            if format.Failure? {
              return Failure(format.error);
            }
            var bundle := BundleOf(o);
            var failure := write(format.value, file.fileName, bundle);
            if failure.Some? {
              return Failure(WriterFailed(failure.value));
            }
            assert messages == Diagnostics(items);
            return Success(ExportReport(messages, Some(WriteJob(format.value, file.fileName, bundle))));
          } else {
            messages := messages + [NotAPointObject(o.objectLabel)];
          }
      }
      assert items[i..][1..] == items[i + 1..];
      i := i + 1;
    }
    assert messages == Diagnostics(items);
    return Success(ExportReport(messages, None));
  }

  /** The first qualifying item of a concatenation is found in the first
      part when it has one, and is shifted past it otherwise. */
  lemma {:induction false} FirstQualifyingAppend(a: seq<Item>, b: seq<Item>)
    ensures FirstQualifying(a + b) ==
              match FirstQualifying(a)
              case Some(k) => Some(k)
              case None => match FirstQualifying(b)
                case None => None
                case Some(k) => Some(|a| + k)
  {
    if a == [] {
      assert a + b == b;
    } else {
      assert (a + b)[0] == a[0];
      assert (a + b)[1..] == a[1..] + b;
      FirstQualifyingAppend(a[1..], b);
    }
  }

  /** Diagnostics of a concatenation: those of the first part, followed by
      those of the second only when the walk did not stop in the first. */
  lemma {:induction false} DiagnosticsAppend(a: seq<Item>, b: seq<Item>)
    ensures Diagnostics(a + b) == if FirstQualifying(a).Some? then Diagnostics(a) else Diagnostics(a) + Diagnostics(b)
  {
    if a == [] {
      assert a + b == b;
    } else {
      assert (a + b)[1..] == a[1..] + b;
      DiagnosticsAppend(a[1..], b);
    }
  }

  /** The walk over items with a foreign item inserted prints the same
      diagnostics and stops at the same qualifying item. */
  lemma {:induction false} ForeignInsertWalk(a: seq<Item>, b: seq<Item>)
    ensures Diagnostics(a + ([Foreign] + b)) == Diagnostics(a + b)
    ensures FirstQualifying(a + ([Foreign] + b)).None? <==> FirstQualifying(a + b).None?
    ensures FirstQualifying(a + b).Some? ==>
              (a + ([Foreign] + b))[FirstQualifying(a + ([Foreign] + b)).value] == (a + b)[FirstQualifying(a + b).value]
  {
    var fb: seq<Item> := [Foreign] + b;
    if a == [] {
      assert a + fb == fb && a + b == b;
      assert fb[1..] == b;
    } else {
      assert (a + fb)[0] == a[0] && (a + b)[0] == a[0];
      assert (a + fb)[1..] == a[1..] + fb;
      assert (a + b)[1..] == a[1..] + b;
      ForeignInsertWalk(a[1..], b);
    }
  }

  /** Foreign items are skipped silently: inserting one anywhere among the
      items changes nothing about the export. */
  lemma ForeignItemsAreSilent(a: seq<Item>, b: seq<Item>, file: FileInfo, havePcl: bool, write: Writer)
    ensures ExportOutcome(a + [Foreign] + b, file, havePcl, write) == ExportOutcome(a + b, file, havePcl, write)
  {
    assert a + [Foreign] + b == a + ([Foreign] + b);
    ForeignInsertWalk(a, b);
  }

  /** Only the first qualifying item is exported: whatever follows it,
      qualifying or not, neither is written nor produces a diagnostic. */
  lemma OnlyFirstIsExported(items: seq<Item>, rest: seq<Item>, file: FileInfo, havePcl: bool, write: Writer)
    requires FirstQualifying(items).Some?
    ensures ExportOutcome(items + rest, file, havePcl, write) == ExportOutcome(items, file, havePcl, write)
  {
    FirstQualifyingAppend(items, rest);
    DiagnosticsAppend(items, rest);
    var k := FirstQualifying(items).value;
    assert (items + rest)[k] == items[k];
  }

  /** A mixed batch writes what the points feature alone would write, and
      adds one diagnostic for each non-qualifying document object in front
      of it. */
  lemma MixedBatch(prefix: seq<Item>, f: DocumentObject, rest: seq<Item>, file: FileInfo, havePcl: bool, write: Writer)
    requires f.PointsFeature?
    requires FirstQualifying(prefix).None?
    ensures ExportOutcome(prefix + [Object(f)] + rest, file, havePcl, write).Success? <==>
              ExportOutcome([Object(f)], file, havePcl, write).Success?
    ensures ExportOutcome(prefix + [Object(f)] + rest, file, havePcl, write).Success? ==>
              && ExportOutcome(prefix + [Object(f)] + rest, file, havePcl, write).value.job
                   == ExportOutcome([Object(f)], file, havePcl, write).value.job
              && ExportOutcome(prefix + [Object(f)] + rest, file, havePcl, write).value.messages
                   == Diagnostics(prefix)
  {
    var single: seq<Item> := [Object(f)];
    assert FirstQualifying(single) == Some(0);
    assert Diagnostics(single) == [];
    FirstQualifyingAppend(prefix, single);
    DiagnosticsAppend(prefix, single);
    OnlyFirstIsExported(prefix + single, rest, file, havePcl, write);
    assert (prefix + single)[|prefix|] == Object(f);
  }
}
