/** The prompt of `refine_content` (refiner.py:68-83): a fixed instruction
    template with the content type and the raw text interpolated verbatim.
    The raw text comes last, after the delimiter lines; nothing is cut,
    split or escaped. The template's literal layout is kept: its lines are
    indented by four spaces, the first line ends in a space after the
    content type, and the text closes with a newline and four spaces. */
module Prompt {
  import opened Wrappers

  /** The content-type labels the two tabs pass. */
  const VideoTranscript: string := "Video Transcript"
  const PdfDocument: string := "PDF Document"

  /** Template text before `{content_type}`. */
  const Opening: string :=
    "\n    You are an expert Knowledge Architect. Your goal is to convert the following raw "

  /** Template text between `{content_type}` and the delimiter lines: the
      rest of the goal sentence, the six rules and a blank line. */
  const Rules: string :=
    " \n    into a structured, high-density reference document.\n\n"
    + "    RULES:\n"
    + "    1. DO NOT summarize broadly. Retain specific technical details, numbers, step-by-step instructions, and unique examples.\n"
    + "    2. RESTRUCTURE the content logically. Use H1, H2, and H3 headers.\n"
    + "    3. If there are distinct concepts, separate them into clear sections.\n"
    + "    4. Capture the \"Why\" and \"How\", not just the \"What\".\n"
    + "    5. If the content is a dialogue, extract the key arguments/lessons rather than transcribing the chat.\n"
    + "    6. Output format: Markdown.\n\n"

  /** The two delimiter lines and the indentation of the raw text's line. */
  const Delimiter: string :=
    "    RAW CONTENT STARTS BELOW:\n    --------------------------\n    "

  /** Template text after `{raw_text}`. */
  const Closing: string := "\n    "

  /** Position of the raw text in a prompt built for this content type. */
  function RawStart(contentType: string): nat
  {
    |Opening| + |contentType| + |Rules| + |Delimiter|
  }

  function BuildPrompt(rawText: string, contentType: string): (prompt: string)
  {
    Opening + contentType + Rules + Delimiter + rawText + Closing
  }

  /** Reads the raw text back out of a prompt, given its content type:
      `None` unless the prompt has the template's fixed text around it. */
  function RawTextOf(prompt: string, contentType: string): (r: Option<string>)
  {
    var head := Opening + contentType + Rules + Delimiter;
    if |head| + |Closing| <= |prompt|
       && prompt[..|head|] == head
       && prompt[|prompt| - |Closing|..] == Closing
    then Some(prompt[|head|..|prompt| - |Closing|])
    else None
  }

  /** Where each of six concatenated strings sits in their concatenation. */
  lemma SixPieces(a: string, b: string, c: string, d: string, e: string, f: string)
    ensures var p, i, j, k, l, m := a + b + c + d + e + f, |a|, |a| + |b|, |a| + |b| + |c|,
      |a| + |b| + |c| + |d|, |a| + |b| + |c| + |d| + |e|;
      && |p| == m + |f|
      && p[..i] == a && p[i..j] == b && p[j..k] == c && p[k..l] == d && p[l..m] == e && p[m..] == f
      && p[..l] == a + b + c + d
  {
    var p := a + b + c + d + e + f;
    var pe := a + b + c + d + e;
    var pd := a + b + c + d;
    var pc := a + b + c;
    var pb := a + b;
    assert p == pe + f && pe == pd + e && pd == pc + d && pc == pb + c;
    assert p[..|pe|] == pe && p[|pe|..] == f;
    assert pe[..|pd|] == pd && pe[|pd|..] == e;
    assert pd[..|pc|] == pc && pd[|pc|..] == d;
    assert pc[..|pb|] == pb && pc[|pb|..] == c;
    assert pb[..|a|] == a && pb[|a|..] == b;
  }

  /** The prompt holds the content type and the whole raw text at fixed
      places, the delimiter lines directly before the raw text, and only
      template text around them: its length is the template's plus both
      interpolated values, so nothing is dropped. */
  lemma BuildPromptLayout(rawText: string, contentType: string)
    ensures var p, s := BuildPrompt(rawText, contentType), RawStart(contentType);
      && |p| == |Opening| + |Rules| + |Delimiter| + |Closing| + |contentType| + |rawText|
      && p[..|Opening|] == Opening
      && p[|Opening|..|Opening| + |contentType|] == contentType
      && p[|Opening| + |contentType|..s - |Delimiter|] == Rules
      && p[s - |Delimiter|..s] == Delimiter
      && p[s..s + |rawText|] == rawText
      && p[s + |rawText|..] == Closing
  {
    SixPieces(Opening, contentType, Rules, Delimiter, rawText, Closing);
  }

  /** The raw text is recovered from the prompt it was placed in, whatever
      it contains (even a copy of the delimiter lines). */
  lemma RawTextRoundTrip(rawText: string, contentType: string)
    ensures RawTextOf(BuildPrompt(rawText, contentType), contentType) == Some(rawText)
  {
    SixPieces(Opening, contentType, Rules, Delimiter, rawText, Closing);
  }

  /** Different raw texts of the same content type give different prompts. */
  lemma BuildPromptInjective(raw1: string, raw2: string, contentType: string)
    requires BuildPrompt(raw1, contentType) == BuildPrompt(raw2, contentType)
    ensures raw1 == raw2
  {
    RawTextRoundTrip(raw1, contentType);
    RawTextRoundTrip(raw2, contentType);
  }

  /** The content type decides the instruction variant: a video prompt and
      a document prompt never coincide, whatever their raw texts. */
  lemma LabelsGiveDistinctPrompts(raw1: string, raw2: string)
    ensures BuildPrompt(raw1, VideoTranscript) != BuildPrompt(raw2, PdfDocument)
  {
    var i := |Opening|;
    BuildPromptLayout(raw1, VideoTranscript);
    BuildPromptLayout(raw2, PdfDocument);
    assert BuildPrompt(raw1, VideoTranscript)[i] == 'V';
    assert BuildPrompt(raw2, PdfDocument)[i] == 'P';
  }
}
