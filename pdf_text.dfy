/** Page-text accumulation of extract_text_from_pdf: the text of every page, in
    page order, appended with no separator. Reading the PDF and getting one page's
    text are the PDF library's business; here a document is the sequence of its
    pages' texts. */
module PdfText {

  /** The pages' texts joined in page order. */
  function Concat(pages: seq<string>): string
  {
    if pages == [] then "" else pages[0] + Concat(pages[1..])
  }

  lemma {:induction false} ConcatAppend(a: seq<string>, b: seq<string>)
    ensures Concat(a + b) == Concat(a) + Concat(b)
  {
    if a == [] {
      assert a + b == b;
    } else {
      assert (a + b)[1..] == a[1..] + b;
      ConcatAppend(a[1..], b);
    }
  }

  /** Page i of the document occupies the stretch of the text that starts right
      after the texts of the pages before it. */
  lemma PageOffset(pages: seq<string>, i: nat)
    requires i < |pages|
    ensures |Concat(pages[..i])| + |pages[i]| <= |Concat(pages)|
    ensures Concat(pages)[|Concat(pages[..i])|..|Concat(pages[..i])| + |pages[i]|] == pages[i]
  {
    assert pages == pages[..i] + ([pages[i]] + pages[i + 1..]);
    ConcatAppend(pages[..i], [pages[i]] + pages[i + 1..]);
    assert Concat([pages[i]] + pages[i + 1..]) == pages[i] + Concat(pages[i + 1..]);
  }

  /** The accumulator loop of extract_text_from_pdf. */
  method ExtractText(pages: seq<string>) returns (fullText: string)
    ensures fullText == Concat(pages)
  {
    fullText := "";
    var n := 0;
    while n < |pages|
      invariant n <= |pages|
      invariant fullText == Concat(pages[..n])
    {
      ConcatAppend(pages[..n], [pages[n]]);
      assert pages[..n + 1] == pages[..n] + [pages[n]];
      fullText := fullText + pages[n];
      n := n + 1;
    }
    assert pages[..n] == pages;
  }
}
