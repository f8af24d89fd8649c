/** Documents as the Git loader produces them, and the `.mdx` filter it is given. */
module Loader {
  import opened Text

  /** A LangChain `Document`: its text and its string-valued metadata. */
  datatype Document = Document(pageContent: string, metadata: map<string, string>)

  const MdxSuffix: string := ".mdx"

  /** `file_filter`: keep exactly the paths that end in ".mdx" (case-sensitive). */
  function FileFilter(filePath: string): (r: bool)
    ensures r <==> |filePath| >= 4 && filePath == filePath[..|filePath| - 4] + MdxSuffix
  {
    EndsWith(filePath, MdxSuffix)
  }

  /** Every path built as some stem followed by ".mdx" is accepted. */
  lemma FileFilterAcceptsMdx(stem: string)
    ensures FileFilter(stem + MdxSuffix)
  {
    EndsWithAppend(stem, MdxSuffix);
  }

  /** A path is accepted only if removing its last four characters leaves a stem
      that, followed by ".mdx", rebuilds the path. */
  lemma FileFilterRejectsOtherSuffix(stem: string, suffix: string)
    requires |suffix| == 4 && suffix != MdxSuffix
    ensures !FileFilter(stem + suffix)
  {
    var p := stem + suffix;
    assert p[|p| - 4..] == suffix;
  }

  /** The test is case-sensitive and needs the dot. */
  lemma FileFilterExamples()
    ensures FileFilter("docs/concepts/index.mdx")
    ensures !FileFilter("docs/concepts/index.MDX")
    ensures !FileFilter("docs/concepts/index.md")
    ensures !FileFilter("mdx")
  {
    FileFilterAcceptsMdx("docs/concepts/index");
    assert "docs/concepts/index" + MdxSuffix == "docs/concepts/index.mdx";
    FileFilterRejectsOtherSuffix("docs/concepts/index", ".MDX");
    assert "docs/concepts/index" + ".MDX" == "docs/concepts/index.MDX";
    FileFilterRejectsOtherSuffix("docs/concepts/inde", "x.md");
    assert "docs/concepts/inde" + "x.md" == "docs/concepts/index.md";
  }
}
