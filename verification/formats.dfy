/** The extension dispatch shared by the open, insert and export entry points:
    which reader or writer a file name selects, in a build with or without
    the PCL input/output backend. */
module Formats {
  import opened Results
  import opened Files

  /** The point-cloud file formats: plain-text ASCII, and the PLY and PCD
      formats that exist only when the PCL backend is compiled in. */
  datatype Format = Asc | Ply | Pcd

  /** The errors the entry points raise. Reader and writer failures carry the
      message of the exception the backend threw. */
  datatype Error =
    | NoFileExtension
    | UnsupportedFileExtension
    | ReaderFailed(message: string)
    | WriterFailed(message: string)

  /** The text of the runtime error each failure raises. */
  function Message(e: Error): string
  {
    match e
    case NoFileExtension => "No file extension"
    case UnsupportedFileExtension => "Unsupported file extension"
    case ReaderFailed(m) => m
    case WriterFailed(m) => m
  }

  /** The extension that selects each format. */
  function Suffix(f: Format): string
  {
    match f
    case Asc => "asc"
    case Ply => "ply"
    case Pcd => "pcd"
  }

  /** Whether the build provides a reader and writer for the format. */
  predicate Available(f: Format, havePcl: bool)
  {
    f == Asc || havePcl
  }

  /** The table of accepted extensions, as a reference for Dispatch. */
  function SupportedExtensions(havePcl: bool): set<string>
  {
    {"asc"} + (if havePcl then {"ply", "pcd"} else {})
  }

  /** The empty-extension check followed by the if-else chain over
      extensions that every entry point runs before building a reader or a
      writer. */
  function Dispatch(file: FileInfo, havePcl: bool): (r: Result<Format, Error>)
    ensures r.Failure? ==> r.error == NoFileExtension || r.error == UnsupportedFileExtension
    ensures r.Failure? && r.error == NoFileExtension <==> file.extension == ""
    ensures r.Success? ==> Available(r.value, havePcl) && HasExtension(file, Suffix(r.value))
    ensures r.Failure? ==>
              Message(r.error) == if file.extension == "" then "No file extension" else "Unsupported file extension"
  {
    if file.extension == "" then Failure(NoFileExtension)
    else if HasExtension(file, "asc") then Success(Asc)
    else if havePcl && HasExtension(file, "ply") then Success(Ply)
    else if havePcl && HasExtension(file, "pcd") then Success(Pcd)
    else Failure(UnsupportedFileExtension)
  }

  lemma LowerOfSuffix(f: Format)
    ensures Lower(Suffix(f)) == Suffix(f)
  {
    var s := Suffix(f);
    assert forall i | 0 <= i < |s| :: LowerChar(s[i]) == s[i];
  }

  /** Every format the build provides is selected by its own extension, in
      any letter case, and by nothing else. */
  lemma DispatchSelects(file: FileInfo, havePcl: bool, f: Format)
    ensures Dispatch(file, havePcl) == Success(f) <==> Available(f, havePcl) && HasExtension(file, Suffix(f))
  {
    LowerOfSuffix(Asc);
    LowerOfSuffix(Ply);
    LowerOfSuffix(Pcd);
    if file.extension == "" {
      EmptyExtensionMatchesNothing(file, Suffix(f));
    }
  }

  /** Dispatch accepts exactly the extensions of the table, up to letter case. */
  lemma DispatchMatchesTable(file: FileInfo, havePcl: bool)
    ensures Dispatch(file, havePcl).Success? <==> Lower(file.extension) in SupportedExtensions(havePcl)
  {
    LowerOfSuffix(Asc);
    LowerOfSuffix(Ply);
    LowerOfSuffix(Pcd);
    if file.extension == "" {
      assert |Lower(file.extension)| == 0;
    }
  }

  /** The PCL build only adds formats: whatever a build without it accepts,
      it accepts the same way, and ASCII is accepted by both. */
  lemma PclOnlyAdds(file: FileInfo)
    ensures Dispatch(file, false).Success? ==> Dispatch(file, true) == Dispatch(file, false)
    ensures Dispatch(file, false).Success? <==> HasExtension(file, "asc")
  {
  }
}
