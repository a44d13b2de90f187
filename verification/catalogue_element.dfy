// Validation in the `CatalogueElement` constructor of the CASDA upload tool:
// the catalogue file must have the ".xml" extension and the catalogue type
// must be one of five known kinds. The parset lookup that supplies the file
// path and type (`TypeElementBase`) is not modelled; both are parameters.

module CatalogueElement {
  import opened Common

  datatype Element = Element(name: string, format: string, filepath: string, catalogueType: string)

  /** The catalogue types the constructor accepts. */
  const AllowedTypes: set<string> := {
    "continuum-island", "continuum-component", "polarisation-component",
    "spectral-line-emission", "spectral-line-absorption"}

  const ExtensionMessage: string := "Unsupported format catalogue - Expect xml file extension"

  /** The last position of `c` in `s`, if any. */
  function LastIndexOf(s: string, c: char): (r: Option<nat>)
    ensures r.None? <==> c !in s
    ensures r.Some? ==> r.value < |s| && s[r.value] == c && c !in s[r.value + 1..]
  {
    if |s| == 0 then None
    else if s[|s| - 1] == c then Some(|s| - 1)
    else
      var r := LastIndexOf(s[..|s| - 1], c);
      assert r.Some? ==> s[r.value + 1..] == s[..|s| - 1][r.value + 1..] + [s[|s| - 1]];
      r
  }

  /** A `c` with no `c` after it is the last one. */
  lemma LastIndexOfAt(s: string, c: char, k: nat)
    requires k < |s| && s[k] == c && c !in s[k + 1..]
    ensures LastIndexOf(s, c) == Some(k)
  {
    var j := LastIndexOf(s, c).value;
    assert forall i :: k < i < |s| ==> s[i] == s[k + 1..][i - k - 1];
    assert forall i :: j < i < |s| ==> s[i] == s[j + 1..][i - j - 1];
  }

  /** The last component of a path (`path::filename`). */
  function FileName(p: string): (f: string)
    ensures '/' !in f && |f| <= |p| && f == p[|p| - |f|..]
  {
    match LastIndexOf(p, '/')
    case None => p
    case Some(k) => p[k + 1..]
  }

  /**
   * `path::extension`: from the last '.' of the file name on; empty when the
   * name has no '.', and for the names "." and "..".
   */
  function Extension(p: string): (e: string)
    ensures e == "" || (e[0] == '.' && '.' !in e[1..] && '/' !in e)
    ensures |e| <= |p| && e == p[|p| - |e|..]
  {
    var f := FileName(p);
    if f == "." || f == ".." then ""
    else
      match LastIndexOf(f, '.')
      case None => ""
      case Some(k) => f[k..]
  }

  /** The constructor: the extension is checked first, then the type. */
  function NewElement(filepath: string, catalogueType: string): (r: Result<Element>)
    ensures r.Ok? <==> Extension(filepath) == ".xml" && catalogueType in AllowedTypes
    ensures Extension(filepath) != ".xml" ==> r == Err(ExtensionMessage)
    ensures r.Ok? ==> r.value == Element("catalogue", "votable", filepath, catalogueType)
  {
    if Extension(filepath) != ".xml" then Err(ExtensionMessage)
    else if catalogueType !in AllowedTypes then
      Err("Unsupported type '" + catalogueType + "' for catalogue")
    else Ok(Element("catalogue", "votable", filepath, catalogueType))
  }

  /** A suffix without '/' survives in the file name. */
  lemma FileNameSuffix(stem: string, suffix: string)
    requires '/' !in suffix
    ensures var f := FileName(stem + suffix);
            |f| >= |suffix| && f[|f| - |suffix|..] == suffix
  {
    var p := stem + suffix;
    assert p[|stem|..] == suffix;
    match LastIndexOf(p, '/')
    case None =>
    case Some(k) =>
      assert p[k + 1..][|p| - k - 1 - |suffix|..] == p[|stem|..];
  }

  /** Any path with ".xml" appended has the ".xml" extension. */
  lemma XmlSuffixIsExtension(stem: string)
    ensures Extension(stem + ".xml") == ".xml"
  {
    FileNameSuffix(stem, ".xml");
    var f := FileName(stem + ".xml");
    var t := f[|f| - 4..];
    assert t == ".xml";
    assert f[|f| - 4] == t[0] && f[|f| - 3..] == t[1..];
    assert '.' !in t[1..];
    LastIndexOfAt(f, '.', |f| - 4);
    assert f != "." && f != "..";
  }

  /** A file with another extension is refused for its extension whatever its type. */
  lemma ExtensionCheckedFirst(filepath: string, t1: string, t2: string)
    requires Extension(filepath) != ".xml"
    ensures NewElement(filepath, t1) == NewElement(filepath, t2) == Err(ExtensionMessage)
  {
  }
}
