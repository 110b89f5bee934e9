# Points import/export entry points, modelled in Dafny

This project models the decision layer of the FreeCAD Points module's
Python entry points: `open`, `insert`, `export` and `show`. Readers,
writers and the document system are abstract here. The model covers four
decisions:

- **Extension dispatch.** Which format a file name selects. An empty
  extension is rejected. `asc` is always accepted. `ply` and `pcd` are
  accepted only in a build with the PCL input/output backend. Anything else
  is an unsupported extension.
- **Import shaping.** Given what a reader reported, the model decides three
  things: which kind of points feature is created (plain, structured custom
  or scattered custom), whether Width and Height are set, and which of the
  Intensity, Color and Normal dynamic properties are attached.
- **Export selection.** Walking the items given to `export`, the model
  decides which points feature is written and which diagnostics are
  printed. It also decides which width/height/channel properties the writer
  receives.
- **Show.** Where an in-memory cloud is attached.

Modules, one per component:

- `Results`: option and result values.
- `PointCloud`: points, colours, typed properties, document objects, and the
  writer bundle.
- `Files`: the file-info fields the entry points use, and the extension
  test.
- `Formats`: the format variants, the error values, and the extension
  dispatch that all three file entry points share.
- `Documents`: the application as a list of documents with an active one.
  It provides lookup by name, document creation, and object addition.
- `Importer`: the shared body of `open` and `insert`, with the target
  document chosen by a policy value.
- `Exporter`: the `export` walk, both as a reference function and as the
  loop the source runs.
- `Showing`: the `show` entry point.
- `RoundTrip`: how a reader report, the imported feature and the writer
  bundle relate.

A reader is a function parameter from a format and a file name to either a
report or an error message. A writer is a function parameter from a format,
a file name and a bundle to an optional error message. Nothing depends on
how they parse or print. "Extension dispatch happens before any reader runs"
is stated as: the outcome of a failed dispatch is the same for every reader.

## Model

| member | source | states |
|---|---|---|
| Formats.Dispatch | src/Mod/Points/App/AppPointsPy.cpp:87-105 | An empty extension fails with "No file extension", and only an empty one does. Any other failure is "Unsupported file extension", with that message text. A selected format is available in the build and matches the file's extension. |
| Formats.DispatchSelects | src/Mod/Points/App/AppPointsPy.cpp:92-105 | A format is selected exactly when the build provides it and the file has its extension, in any letter case. |
| Formats.DispatchMatchesTable | src/Mod/Points/App/AppPointsPy.cpp:313-326 | Reader and writer dispatch accept exactly the extensions of the table: asc, plus ply and pcd with PCL. |
| Formats.PclOnlyAdds | src/Mod/Points/App/AppPointsPy.cpp:95-102 | A build without PCL accepts exactly the asc extension. A PCL build accepts everything that build accepts, with the same format. |
| Documents.Find | src/Mod/Points/App/AppPointsPy.cpp:213-216 | The document lookup by name finds the first document with that name, and finds nothing only when no document has that name. |
| Importer.NewFeature | src/Mod/Points/App/AppPointsPy.cpp:111-169 | With no properties reported, the feature is a plain feature named after the file, holding the reader's points and no properties. Otherwise it is structured custom (with the reader's Width and Height) or scattered custom (no Width/Height). Intensity, Color and Normal are each present iff reported, and hold exactly the reported values. No other property names are used. |
| Importer.SelectDocument | src/Mod/Points/App/AppPointsPy.cpp:211-216 | The target document has the requested name: "Unnamed" for open, the given name for insert. When insert finds a document of that name, the application is unchanged and the target is the first such document. Otherwise one empty document of that name is appended, becomes active, and is the target. |
| Importer.Import | src/Mod/Points/App/AppPointsPy.cpp:187-280 | The import succeeds exactly when dispatch and the reader both succeed. A dispatch failure is returned unchanged, and a reader failure is returned as a reader error; both happen before any document is obtained. On success the document list is exactly the old one with the built feature appended to the reused document (the first with the requested name), or with one new document of that name holding only the feature. The active document is kept on reuse, and is the new document otherwise. |
| Importer.Open | src/Mod/Points/App/AppPointsPy.cpp:75-176 | Open fails exactly when dispatch or the reader fails. On success it appends exactly one new "Unnamed" document holding only the imported feature, and that document becomes active. |
| Importer.Insert | src/Mod/Points/App/AppPointsPy.cpp:178-283 | Insert fails exactly when dispatch or the reader fails. On success, when a document of the given name exists, the feature is appended to its objects, no other document changes, and the active document is kept. Otherwise exactly one new document of that name, holding only the feature, is appended and becomes active. |
| Importer.ChannelsIndependent | src/Mod/Points/App/AppPointsPy.cpp:133-156 | For two reports that differ only in their channels, the features have the same kind. They agree under every name except Intensity, Color and Normal, and under each of those whose channel is the same in both reports. |
| Importer.WellFormedImportLosesNothing | src/Mod/Points/App/AppPointsPy.cpp:112-162 | For a report that keeps the reader contract, the feature's kind follows the grid flag, every reported channel reads back unchanged, and Width and Height read back as the reported grid size exactly when the cloud is structured. The feature is coherent: channels are aligned with the points, and width times height equals the point count. |
| Importer.PlainPathKeepsOnlyPoints | src/Mod/Points/App/AppPointsPy.cpp:163-169 | With the properties flag clear, the feature is exactly a plain feature with the points, whatever channels the reader also reports. |
| Exporter.FirstQualifying | src/Mod/Points/App/AppPointsPy.cpp:304-310 | It finds the first item that is a document object derived from the points feature type. No earlier item qualifies, and when none is found no item qualifies. |
| Exporter.BundleOf | src/Mod/Points/App/AppPointsPy.cpp:328-356 | The writer gets the points. It gets each of Width, Height, Intensity, Color and Normal iff a property of that name has the matching type, with that property's value. A same-named property of another type counts as absent. |
| Exporter.ExportOutcome | src/Mod/Points/App/AppPointsPy.cpp:296-368 | An empty extension fails first, whatever the items. With no qualifying item the call succeeds, writes nothing and does not look at the extension. With one, an unsupported extension fails as such; otherwise the writer runs on the dispatched format, the file name and the first qualifying feature's bundle, and its message becomes a writer error, or the call succeeds with that write and the diagnostics. |
| Exporter.Export | src/Mod/Points/App/AppPointsPy.cpp:285-369 | The loop that skips, reports and stops at the first points feature computes exactly the reference outcome. |
| Exporter.FirstQualifyingAppend | src/Mod/Points/App/AppPointsPy.cpp:304-361 | In a concatenation, the first qualifying item is found in the first part when it has one, and is shifted past that part otherwise. |
| Exporter.DiagnosticsAppend | src/Mod/Points/App/AppPointsPy.cpp:362-364 | In a concatenation, the diagnostics are those of the first part, followed by those of the second only when the walk did not stop in the first; so messages come out in item order. |
| Exporter.DiagnosticsNameReportedObjects | src/Mod/Points/App/AppPointsPy.cpp:362-364 | Every diagnostic is the "is not a point object" message for a non-points document object before the first qualifying item, and every such object has its message. |
| Exporter.ForeignItemsAreSilent | src/Mod/Points/App/AppPointsPy.cpp:305-306 | An item that is not a document object, inserted at any position, changes neither the write nor the diagnostics. |
| Exporter.OnlyFirstIsExported | src/Mod/Points/App/AppPointsPy.cpp:358-360 | Items after the first qualifying one change nothing: they are neither written nor reported. |
| Exporter.MixedBatch | src/Mod/Points/App/AppPointsPy.cpp:302-366 | A batch made of non-qualifying items, a points feature and anything after it writes what the feature alone would write. Its diagnostics are those of the leading non-qualifying objects. |
| Showing.Show | src/Mod/Points/App/AppPointsPy.cpp:371-393 | The cloud is added as a plain "Points" feature holding the cloud. With an active document, the document list is the old one with the feature appended to the active document, whose name is kept. Otherwise a new "Unnamed" document holding just that feature is appended and becomes active. |
| RoundTrip.ImportThenBundle | src/Mod/Points/App/AppPointsPy.cpp:112-156 | For a report that keeps the reader contract, exporting the imported feature gives the writer the points and exactly the reported channels, plus the grid size iff the cloud is structured. |
| RoundTrip.PlainImportThenBundle | src/Mod/Points/App/AppPointsPy.cpp:163-169 | A feature imported on the plain path exports as its points only. |
| RoundTrip.OpenThenExport | src/Mod/Points/App/AppPointsPy.cpp:107-169 | Opening a file and exporting the created feature succeeds with no diagnostics. The writer receives exactly what the reader reported. |
| RoundTrip.ShowThenBundle | src/Mod/Points/App/AppPointsPy.cpp:381-385 | A shown cloud exports as its points only. |

## Left out

- Python argument parsing, string encoding and freeing, and iteration over the Python sequence are not modelled. The items are a Dafny sequence of tagged items.
- Console logging is left out, except the "is not a point object" message, which is kept as a list of diagnostics.
- The concrete ASCII, PLY and PCD readers and writers, and PCL itself, are not part of this model. They are function parameters, so how reports are parsed and files printed is not modelled.
- The reader contract (`Importer.WellFormed`) is not checked here. It says that the properties flag is raised iff some channel or a grid is present. The readers that compute these flags are not part of this model. `Importer.PlainPathKeepsOnlyPoints` shows what the entry points do for a reader that breaks the contract.
- File-info name splitting is left out: the full name, pure name and extension are taken as given. The extension comparison is assumed to ignore ASCII letter case, because the file-info helper is not part of this model.
- Unique name generation is left out. The document system renames documents and objects whose names are taken; here names are kept as requested, and a document is identified by its position.
- The document system is assumed to make a new document the active one. Recompute and the touched-flag reset after adding a feature are left out, because they belong to the document system.
- Exceptions the document system might throw while adding or recomputing a feature are left out, so a successful read always ends in an added feature.
- The null checks after looking up Width/Height and after adding the Intensity/Color/Normal dynamic properties are not modelled. Property lookup on a freshly created feature and dynamic-property creation are assumed to succeed, so every reported grid value and channel is set.
- A document created without a name (as `show` does) is assumed to be named "Unnamed", the document system's default; that default is not part of this model.
- Exception translation is reduced to one error datatype. In the source, `open`, `insert` and `show` turn framework exceptions into Python runtime errors; `export` lets writer exceptions propagate as they are.
- Diagnostics printed before `export` fails are lost with the failure, since the failure result carries no report.
- Width and Height are unbounded integers here. The source's integer properties are machine integers; no arithmetic is done on them in these entry points.
- Coordinates, grey values, colours and normals are carried as real-valued records and never computed with. Floating point is not modelled.
- The file-level round trip (reading back what a writer wrote) depends on the codecs, which are not part of this model. `RoundTrip` covers the part the entry points decide: the bundle a writer receives equals what the reader reported.
