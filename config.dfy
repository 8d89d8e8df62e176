/** Application settings: the supported extensions and the default output folder name. */
module Config {
  import opened Strings
  import opened Paths

  const AppVersion: string := "1.0.0"

  /** Suffix appended to the source folder to name the default output folder. */
  const DefaultOutputSuffix: string := "_extracted"

  const MaxFilenameLength: nat := 200

  /** SUPPORTED_EXTENSIONS: an insertion-ordered mapping from format family to its extensions. */
  const SupportedExtensions: seq<(string, seq<string>)> :=
    [("excel", [".xlsx", ".xls"]), ("pdf", [".pdf"]), ("word", [".docx"]), ("powerpoint", [".pptx"])]

  /** Concatenation of the extension lists of `groups`, in order. */
  function Flatten(groups: seq<(string, seq<string>)>): seq<string> {
    if groups == [] then [] else Flatten(groups[..|groups| - 1]) + groups[|groups| - 1].1
  }

  /** The value `get_all_supported_extensions()` returns. */
  function AllSupportedExtensions(): seq<string> {
    Flatten(SupportedExtensions)
  }

  /** `get_all_supported_extensions`: extends a list with each family's extensions in turn. */
  method GetAllSupportedExtensions() returns (extensions: seq<string>)
    ensures extensions == [".xlsx", ".xls", ".pdf", ".docx", ".pptx"]
    ensures extensions == AllSupportedExtensions()
  {
    extensions := [];
    var i := 0;
    while i < |SupportedExtensions|
      invariant 0 <= i <= |SupportedExtensions|
      invariant extensions == Flatten(SupportedExtensions[..i])
    {
      assert SupportedExtensions[..i + 1][..i] == SupportedExtensions[..i];
      extensions := extensions + SupportedExtensions[i].1;
      i := i + 1;
    }
    assert SupportedExtensions[..i] == SupportedExtensions;
    AllSupportedExtensionsValue();
  }

  /** `is_supported_file`: the lower-cased last suffix of the file name is a supported extension. */
  predicate IsSupportedFile(p: Path) {
    Lower(Suffix(Name(p))) in AllSupportedExtensions()
  }

  lemma AllSupportedExtensionsValue()
    ensures AllSupportedExtensions() == [".xlsx", ".xls", ".pdf", ".docx", ".pptx"]
  {
    var g := SupportedExtensions;
    assert g[..0] == [];
    assert g[..1][..0] == g[..0] && g[..2][..1] == g[..1];
    assert g[..3][..2] == g[..2] && g[..4][..3] == g[..3] && g[..4] == g;
    assert Flatten(g[..1]) == [".xlsx", ".xls"];
    assert Flatten(g[..2]) == [".xlsx", ".xls", ".pdf"];
    assert Flatten(g[..3]) == [".xlsx", ".xls", ".pdf", ".docx"];
  }

  /**
   * For a file named `stem.ext` (non-empty stem, dot-free non-empty ext), support is decided by
   * the lower-cased last extension alone, whatever the stem holds (further dots included).
   */
  lemma {:induction false} SupportedByLastExtension(dir: Path, stem: string, ext: string)
    requires stem != [] && ext != []
    requires forall j :: 0 <= j < |ext| ==> ext[j] != '.'
    ensures IsSupportedFile(Child(dir, stem + "." + ext))
        <==> "." + Lower(ext) in [".xlsx", ".xls", ".pdf", ".docx", ".pptx"]
  {
    SuffixOfAppended(stem, ext);
    AllSupportedExtensionsValue();
    assert Lower("." + ext) == "." + Lower(ext);
  }

  /** A file name without a suffix (no dot, or only a leading or trailing one) is never supported. */
  lemma NoSuffixUnsupported(p: Path)
    requires SuffixDot(Name(p)).None?
    ensures !IsSupportedFile(p)
  {
    AllSupportedExtensionsValue();
  }

  /** Upper-case extensions are supported: "A.PDF" is. */
  lemma UpperCaseSupported(dir: Path)
    ensures IsSupportedFile(Child(dir, "A.PDF"))
  {
    assert "A.PDF" == "A" + "." + "PDF";
    SupportedByLastExtension(dir, "A", "PDF");
    var l := Lower("PDF");
    assert l[0] == 'p' && l[1] == 'd' && l[2] == 'f';
    assert "." + l == ".pdf";
  }

  /** Only the last suffix counts: "a.txt.pdf" is supported... */
  lemma LastSuffixSupported(dir: Path)
    ensures IsSupportedFile(Child(dir, "a.txt.pdf"))
  {
    var name := "a.txt.pdf";
    assert Name(Child(dir, name)) == name;
    assert name == "a.txt" + "." + "pdf";
    SuffixOfAppended("a.txt", "pdf");
    var l := Lower(".pdf");
    assert l[0] == '.' && l[1] == 'p' && l[2] == 'd' && l[3] == 'f';
    assert l == ".pdf";
    AllSupportedExtensionsValue();
  }

  /** ...and "a.pdf.txt" is not. */
  lemma EarlierSuffixIgnored(dir: Path)
    ensures !IsSupportedFile(Child(dir, "a.pdf.txt"))
  {
    assert "a.pdf.txt" == "a.pdf" + "." + "txt";
    SupportedByLastExtension(dir, "a.pdf", "txt");
    var m := Lower("txt");
    assert m[0] == 't';
    assert ("." + m)[1] == 't';
  }

  /** The default output folder: the source folder's path string with `_extracted` appended. */
  function DefaultOutputFolder(source: Path): (r: string)
    ensures |r| == |ToString(source)| + 10
    ensures r[..|ToString(source)|] == ToString(source)
    ensures r[|ToString(source)|..] == "_extracted"
  {
    ToString(source) + DefaultOutputSuffix
  }
}
