/**
  Names of the two downloads offered for a summary (app.py):
  `summary_<format in lower case>.txt` and `summary_<format in lower case>.pdf`.
  The file contents (UTF-8 bytes, a PDF document) are produced by libraries and
  are not part of this module.
 */
module Export {
  import opened Strings
  import Prompt

  const NamePrefix: string := "summary_"
  const TxtExtension: string := ".txt"
  const PdfExtension: string := ".pdf"

  /** `f"summary_{summary_format.lower()}{extension}"`. */
  function ExportFileName(format: string, extension: string): (r: string)
    ensures |r| == |NamePrefix| + |format| + |extension|
    ensures r[..|NamePrefix|] == NamePrefix
    ensures r[|NamePrefix|..|NamePrefix| + |format|] == Lower(format)
    ensures r[|r| - |extension|..] == extension
  {
    NamePrefix + Lower(format) + extension
  }

  /** The plain-text download name. */
  function TxtFileName(format: string): string {
    ExportFileName(format, TxtExtension)
  }

  /** The PDF download name. */
  function PdfFileName(format: string): string {
    ExportFileName(format, PdfExtension)
  }

  /** The file name gives back the format in lower case and the extension. */
  lemma ExportFileNameParts(format: string, extension: string)
    ensures var r := ExportFileName(format, extension);
      r[|NamePrefix|..|r| - |extension|] == Lower(format) && r[|r| - |extension|..] == extension
  {
  }

  /** The two downloads of one summary never share a name; they differ only in the extension. */
  lemma TxtAndPdfDiffer(format: string)
    ensures TxtFileName(format) != PdfFileName(format)
    ensures TxtFileName(format)[..|TxtFileName(format)| - 4] == PdfFileName(format)[..|PdfFileName(format)| - 4]
  {
    var t, p := TxtFileName(format), PdfFileName(format);
    assert t[|t| - 3] == 't' && p[|p| - 3] == 'p';
    assert t[..|t| - 4] == NamePrefix + Lower(format) == p[..|p| - 4];
  }

  /** The lower-cased labels of the offered formats. */
  lemma LowerFormatOptions()
    ensures Lower(Prompt.FormatOptions[0]) == "bullet points"
    ensures Lower(Prompt.FormatOptions[1]) == "sentences"
    ensures Lower(Prompt.FormatOptions[2]) == "paragraphs"
    ensures Lower(Prompt.FormatOptions[3]) == "report"
    ensures Lower(Prompt.FormatOptions[4]) == "essay"
    ensures Lower(Prompt.FormatOptions[5]) == "review"
  {
  }

  /** Different offered formats give different download names. */
  lemma FileNamesDistinguishFormats(i: nat, j: nat, extension: string)
    requires i < |Prompt.FormatOptions| && j < |Prompt.FormatOptions| && i != j
    ensures ExportFileName(Prompt.FormatOptions[i], extension) != ExportFileName(Prompt.FormatOptions[j], extension)
  {
    LowerFormatOptions();
    var a, b := Prompt.FormatOptions[i], Prompt.FormatOptions[j];
    var ra, rb := ExportFileName(a, extension), ExportFileName(b, extension);
    if |a| == |b| {
      assert ra[|NamePrefix|..|NamePrefix| + |a|] == Lower(a);
      assert rb[|NamePrefix|..|NamePrefix| + |b|] == Lower(b);
      assert Lower(a) != Lower(b);
    }
  }
}
