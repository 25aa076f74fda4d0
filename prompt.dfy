/** The prompt of gpt_extract_financials: a fixed instruction around the first
    4000 characters of the extracted text. The words "# Only send first 4000
    tokens for demo" sit inside the template string, so they are part of the
    prompt that is sent. */
module Prompt {
  import PdfText

  /** How much of the extracted text the prompt carries. */
  const ExcerptLimit: nat := 4000

  /** The template text before the excerpt. */
  const Preamble: string :=
    "\nYou are a financial analyst. Extract the following key metrics from this CIM text:\n"
    + "- Revenue for each year (e.g., 2021, 2022, 2023)\n"
    + "- EBITDA for each year\n"
    + "- CapEx for each year\n"
    + "Return as JSON with keys like Revenue_2021, EBITDA_2021, etc.\n"
    + "\n"
    + "Text:\n"

  /** The template text after the excerpt. */
  const Trailer: string := "  # Only send first 4000 tokens for demo\n"

  /** Python's s[:n]: the first n characters, or all of s when it is shorter. */
  function Head(s: string, n: nat): (h: string)
    ensures |h| == if |s| < n then |s| else n
    ensures h <= s
  {
    if |s| <= n then s else s[..n]
  }

  function BuildPrompt(rawText: string): string
  {
    Preamble + Head(rawText, ExcerptLimit) + Trailer
  }

  /** The part of a prompt between the fixed preamble and trailer. */
  function ExcerptOf(prompt: string): string
    requires |Preamble| + |Trailer| <= |prompt|
  {
    prompt[|Preamble|..|prompt| - |Trailer|]
  }

  /** A prompt is the preamble, then the excerpt, then the trailer, and the
      excerpt can be read back out of it: it is the text's first 4000 characters. */
  lemma ExcerptRoundTrip(rawText: string)
    ensures |BuildPrompt(rawText)| == |Preamble| + |Head(rawText, ExcerptLimit)| + |Trailer|
    ensures BuildPrompt(rawText)[..|Preamble|] == Preamble
    ensures BuildPrompt(rawText)[|BuildPrompt(rawText)| - |Trailer|..] == Trailer
    ensures ExcerptOf(BuildPrompt(rawText)) == Head(rawText, ExcerptLimit)
  {
  }

  /** Nothing past the 4000th character reaches the prompt. */
  lemma PromptIgnoresTail(rawText: string, more: string)
    requires ExcerptLimit <= |rawText|
    ensures BuildPrompt(rawText + more) == BuildPrompt(rawText)
  {
  }

  /** Texts of at most 4000 characters are carried whole, so different such
      texts give different prompts. */
  lemma ShortTextsDistinguished(a: string, b: string)
    requires |a| <= ExcerptLimit && |b| <= ExcerptLimit
    requires BuildPrompt(a) == BuildPrompt(b)
    ensures a == b
  {
    ExcerptRoundTrip(a);
    ExcerptRoundTrip(b);
  }

  /** extract_text_from_pdf feeds gpt_extract_financials: once the leading
      pages hold 4000 characters, the pages after them do not change the prompt. */
  lemma LaterPagesIgnored(pages: seq<string>, j: nat)
    requires j <= |pages| && ExcerptLimit <= |PdfText.Concat(pages[..j])|
    ensures BuildPrompt(PdfText.Concat(pages)) == BuildPrompt(PdfText.Concat(pages[..j]))
  {
    assert pages == pages[..j] + pages[j..];
    PdfText.ConcatAppend(pages[..j], pages[j..]);
    PromptIgnoresTail(PdfText.Concat(pages[..j]), PdfText.Concat(pages[j..]));
  }
}
