/** Which handler PrintUtil.print(filePath, deviceName) runs for a file type:
    a chain of case-insensitive equality tests against eleven known types,
    falling through to doing nothing. */
module Dispatch {

  /** The DocFlavor a raster image is submitted with. */
  datatype Flavor = Jpeg | Gif | Png

  datatype Handler =
    | Raster(flavor: Flavor)  // normalPrint of the file itself
    | Pdf                     // printPDF: render each page to PNG and print it
    | Word                    // printWord
    | Excel                   // printExcel
    | Ppt                     // printPPT
    | NoOp                    // no test matched: print returns having done nothing

  /** String.equalsIgnoreCase compares two characters by their upper-case forms
      and by the lower-case forms of those. Against a lower-case ASCII letter
      that accepts the letter itself, its upper-case form, and the three
      non-ASCII characters whose case mappings lead to ASCII: dotless i and
      dotted capital I (to 'i'), long s (to 's') and the Kelvin sign (to 'k').
      Fold sends each character to the lower-case ASCII letter it matches, and
      leaves every other character alone. */
  function Fold(c: char): char {
    if 'A' <= c <= 'Z' then (c as int + 32) as char
    else if c == '\U{0130}' || c == '\U{0131}' then 'i'
    else if c == '\U{017F}' then 's'
    else if c == '\U{212A}' then 'k'
    else c
  }

  /** `lit.equalsIgnoreCase(s)` for a lower-case ASCII literal `lit`. */
  predicate EqualsIgnoreCase(lit: string, s: string) {
    |s| == |lit| && forall i :: 0 <= i < |s| ==> Fold(s[i]) == lit[i]
  }

  /** The file type with every character folded as above. */
  function Lower(s: string): string {
    seq(|s|, i requires 0 <= i < |s| => Fold(s[i]))
  }

  /** The equality chain of print(filePath, deviceName), in the source's order. */
  function Classify(ext: string): Handler {
    if EqualsIgnoreCase("jpg", ext) then Raster(Jpeg)
    else if EqualsIgnoreCase("jpeg", ext) then Raster(Jpeg)
    else if EqualsIgnoreCase("gif", ext) then Raster(Gif)
    else if EqualsIgnoreCase("pdf", ext) then Pdf
    else if EqualsIgnoreCase("png", ext) then Raster(Png)
    else if EqualsIgnoreCase("doc", ext) then Word
    else if EqualsIgnoreCase("docx", ext) then Word
    else if EqualsIgnoreCase("xls", ext) then Excel
    else if EqualsIgnoreCase("xlsx", ext) then Excel
    else if EqualsIgnoreCase("ppt", ext) then Ppt
    else if EqualsIgnoreCase("pptx", ext) then Ppt
    else NoOp
  }

  /** The supported file types as one table keyed by the lower-case type. */
  const Table: map<string, Handler> := map[
    "jpg" := Raster(Jpeg), "jpeg" := Raster(Jpeg), "gif" := Raster(Gif),
    "png" := Raster(Png), "pdf" := Pdf,
    "doc" := Word, "docx" := Word,
    "xls" := Excel, "xlsx" := Excel,
    "ppt" := Ppt, "pptx" := Ppt]

  /** A lookup of the folded type in the table, NoOp when it is not there. */
  function Lookup(ext: string): Handler {
    if Lower(ext) in Table then Table[Lower(ext)] else NoOp
  }

  /** A case-insensitive test against a literal is equality of the folded text
      with that literal. */
  lemma EqualsIgnoreCaseIsFoldedEquality(lit: string, s: string)
    ensures EqualsIgnoreCase(lit, s) <==> Lower(s) == lit
  {
    if Lower(s) == lit {
      assert forall i :: 0 <= i < |s| ==> Lower(s)[i] == Fold(s[i]);
    }
  }

  /** The equality chain and the table agree on every file type: each
      supported type, in any case, selects the handler the table gives it, and
      every other type selects NoOp. */
  lemma ClassifyIsLookup(ext: string)
    ensures Classify(ext) == Lookup(ext)
  {
    var k := Lower(ext);
    EqualsIgnoreCaseIsFoldedEquality("jpg", ext);
    EqualsIgnoreCaseIsFoldedEquality("jpeg", ext);
    EqualsIgnoreCaseIsFoldedEquality("gif", ext);
    EqualsIgnoreCaseIsFoldedEquality("pdf", ext);
    EqualsIgnoreCaseIsFoldedEquality("png", ext);
    EqualsIgnoreCaseIsFoldedEquality("doc", ext);
    EqualsIgnoreCaseIsFoldedEquality("docx", ext);
    EqualsIgnoreCaseIsFoldedEquality("xls", ext);
    EqualsIgnoreCaseIsFoldedEquality("xlsx", ext);
    EqualsIgnoreCaseIsFoldedEquality("ppt", ext);
    EqualsIgnoreCaseIsFoldedEquality("pptx", ext);
    assert Table.Keys == {"jpg", "jpeg", "gif", "png", "pdf", "doc", "docx", "xls", "xlsx", "ppt", "pptx"};
  }

  /** Classification ignores case: two types that fold alike ("PDF", "pdf",
      "Pdf") select the same handler. */
  lemma ClassifyIgnoresCase(a: string, b: string)
    requires Lower(a) == Lower(b)
    ensures Classify(a) == Classify(b)
  {
    ClassifyIsLookup(a);
    ClassifyIsLookup(b);
  }

  /** Which folded types select each handler, in both directions. */
  lemma ClassifyCases(ext: string)
    ensures Classify(ext) == Raster(Jpeg) <==> Lower(ext) in {"jpg", "jpeg"}
    ensures Classify(ext) == Raster(Gif) <==> Lower(ext) == "gif"
    ensures Classify(ext) == Raster(Png) <==> Lower(ext) == "png"
    ensures Classify(ext) == Pdf <==> Lower(ext) == "pdf"
    ensures Classify(ext) == Word <==> Lower(ext) in {"doc", "docx"}
    ensures Classify(ext) == Excel <==> Lower(ext) in {"xls", "xlsx"}
    ensures Classify(ext) == Ppt <==> Lower(ext) in {"ppt", "pptx"}
    ensures Classify(ext) == NoOp <==> Lower(ext) !in Table
  {
    ClassifyIsLookup(ext);
  }

  /** A type whose last character is 'f' can only be a GIF, a PDF or unknown;
      in particular it never reaches an Office handler. */
  lemma ClassifyEndingInF(ext: string)
    requires |ext| > 0 && ext[|ext| - 1] == 'f'
    ensures Classify(ext) in {Raster(Gif), Pdf, NoOp}
  {
    ClassifyCases(ext);
    assert Lower(ext)[|ext| - 1] == 'f';
  }
}
