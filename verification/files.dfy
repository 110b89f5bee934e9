/** The part of a file-info object the entry points use: the full name handed
    to readers and writers, the pure name (no directory, no extension) that
    labels an imported feature, and the extension. */
module Files {

  /** How the name splits is the file-info helper's business and is taken as
      given here. */
  datatype FileInfo = FileInfo(fileName: string, pureName: string, extension: string)

  function LowerChar(c: char): char
  {
    if 'A' <= c <= 'Z' then (c as int + 32) as char else c
  }

  /** ASCII lower-casing, the folding an extension comparison ignores. */
  function Lower(s: string): string
  {
    seq(|s|, i requires 0 <= i < |s| => LowerChar(s[i]))
  }

  /** The extension test: equal up to ASCII letter case. */
  predicate HasExtension(file: FileInfo, ext: string)
  {
    Lower(file.extension) == Lower(ext)
  }

  /** A file whose extension is empty has none of the non-empty extensions. */
  lemma EmptyExtensionMatchesNothing(file: FileInfo, ext: string)
    requires file.extension == "" && ext != ""
    ensures !HasExtension(file, ext)
  {
    assert |Lower(file.extension)| == 0 != |Lower(ext)|;
  }
}
