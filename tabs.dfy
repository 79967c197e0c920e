/** The two tab handlers (refiner.py:98-128 for a video, refiner.py:131-161
    for a PDF), run once per button press. Each checks the API key, then its
    input, extracts the raw text, and only for a truthy text builds the
    prompt and asks the model for a stream; a stream that is there is folded
    into `full_response`, rendered after every chunk and offered for
    download. The Streamlit calls are modelled by what they put on screen. */
module Tabs {
  import opened Wrappers
  import Transcript
  import PdfText
  import Prompt
  import Stream

  /** The sidebar settings: the API key and the chosen model's name. */
  datatype Config = Config(apiKey: string, modelId: string)

  /** One `generate_content(prompt, stream=True)` call, with the key and the
      model the client was configured with. */
  datatype Request = Request(apiKey: string, modelId: string, prompt: string)

  /** The `st.warning` messages of the gating chain. */
  datatype Warning = MissingApiKey | MissingUrl | MissingFile

  /** The `st.error` messages: which handler caught an exception. */
  datatype Failure = YoutubeError | PdfError | GeminiError

  /** The `st.download_button` offer. */
  datatype Download = Download(data: string, fileName: string, mime: string)

  /** An uploaded file: its name and what the PDF library reads from it. */
  datatype Upload = Upload(name: string, document: PdfText.PdfDocument)

  /** What one button press leaves on screen and sends out: the warning
      shown, the error shown, the character count of the `st.info` line,
      the model request issued, the successive renders of the output
      container, and the download offered. */
  datatype TabView = TabView(
    warning: Option<Warning>,
    error: Option<Failure>,
    extractedChars: Option<nat>,
    request: Option<Request>,
    shown: seq<string>,
    download: Option<Download>)

  const Markdown: string := "text/markdown"

  /** Nothing shown, nothing sent. */
  const Quiet: TabView := TabView(None, None, None, None, [], None)

  const VideoPrefix: string := "refined_video_"
  const DocumentPrefix: string := "refined_"
  const Extension: string := ".md"

  /** `f"refined_video_{vid_id}.md"`. */
  function VideoFileName(id: string): (fileName: string)
  {
    VideoPrefix + id + Extension
  }

  /** `f"refined_{uploaded_file.name}.md"`; the upload's own extension is
      kept, so `notes.pdf` becomes `refined_notes.pdf.md`. */
  function DocumentFileName(name: string): (fileName: string)
  {
    DocumentPrefix + name + Extension
  }

  /** The part of a file name between a prefix and the `.md` extension. */
  function StemOf(fileName: string, prefix: string): (r: Option<string>)
  {
    if |prefix| + |Extension| <= |fileName|
       && fileName[..|prefix|] == prefix
       && fileName[|fileName| - |Extension|..] == Extension
    then Some(fileName[|prefix|..|fileName| - |Extension|])
    else None
  }

  /** A video download name gives back the video id it was made from. */
  lemma VideoFileNameRoundTrip(id: string)
    ensures StemOf(VideoFileName(id), VideoPrefix) == Some(id)
  {
    var v := VideoFileName(id);
    assert v[..|VideoPrefix|] == VideoPrefix;
    assert v[|v| - |Extension|..] == Extension;
    assert v[|VideoPrefix|..|v| - |Extension|] == id;
  }

  /** A document download name gives back the uploaded file's name. */
  lemma DocumentFileNameRoundTrip(stem: string)
    ensures StemOf(DocumentFileName(stem), DocumentPrefix) == Some(stem)
  {
    var d := DocumentFileName(stem);
    assert d[..|DocumentPrefix|] == DocumentPrefix;
    assert d[|d| - |Extension|..] == Extension;
    assert d[|DocumentPrefix|..|d| - |Extension|] == stem;
  }

  /** The first two links of the chain (refiner.py:101-104 and
      refiner.py:134-137): the API key is checked before the input. */
  function Gate(apiKey: string, inputGiven: bool, missing: Warning): (w: Option<Warning>)
  {
    if apiKey == "" then Some(MissingApiKey)
    else if !inputGiven then Some(missing)
    else None
  }

  /** What the rest of a handler does with an extracted text (refiner.py:109-128
      and refiner.py:142-161): an empty text is falsy and nothing more
      happens; otherwise the length is reported, the prompt for the text is
      sent, and either the invoker's error is shown (no stream) or every
      prefix of the chunk sequence is rendered in turn and their
      concatenation is offered under fileName. */
  ghost predicate Refined(view: TabView, cfg: Config, rawText: string, contentType: string,
                          fileName: string, generate: Request -> Option<seq<string>>)
  {
    if rawText == "" then view == Quiet
    else
      var req := Request(cfg.apiKey, cfg.modelId, Prompt.BuildPrompt(rawText, contentType));
      && view.warning.None?
      && view.extractedChars == Some(|rawText|)
      && view.request == Some(req)
      && match generate(req)
         case None =>
           view.error == Some(GeminiError) && view.shown == [] && view.download.None?
         case Some(chunks) =>
           && view.error.None?
           && |view.shown| == |chunks|
           && (forall k :: 0 <= k < |chunks| ==> view.shown[k] == Stream.Concat(chunks[..k + 1]))
           && view.download == Some(Download(Stream.Concat(chunks), fileName, Markdown))
  }

  /** The part both handlers share once a text was extracted. */
  method StreamRefinement(cfg: Config, rawText: string, contentType: string, fileName: string,
                          generate: Request -> Option<seq<string>>)
    returns (view: TabView)
    ensures Refined(view, cfg, rawText, contentType, fileName, generate)
  {
    if rawText == "" {
      return Quiet;
    }
    var req := Request(cfg.apiKey, cfg.modelId, Prompt.BuildPrompt(rawText, contentType));
    var stream := generate(req);
    if stream.None? {
      return TabView(None, Some(GeminiError), Some(|rawText|), Some(req), [], None);
    }
    var shown, full := Stream.Aggregate(stream.value);
    view := TabView(None, None, Some(|rawText|), Some(req), shown,
                    Some(Download(full, fileName, Markdown)));
  }

  /** The video tab (refiner.py:100-128). */
  method RefineVideo(cfg: Config, url: string, captions: string -> Transcript.CaptionResponse,
                     generate: Request -> Option<seq<string>>)
    returns (view: TabView)
    ensures cfg.apiKey == "" ==> view == Quiet.(warning := Some(MissingApiKey))
    ensures cfg.apiKey != "" && url == "" ==> view == Quiet.(warning := Some(MissingUrl))
    ensures cfg.apiKey != "" && url != "" ==>
      match Transcript.ExtractYoutubeText(url, captions)
      case (Some(text), Some(id)) =>
        Refined(view, cfg, text, Prompt.VideoTranscript, VideoFileName(id), generate)
      case _ => view == Quiet.(error := Some(YoutubeError))
  {
    var warning := Gate(cfg.apiKey, url != "", MissingUrl);
    if warning.Some? {
      return Quiet.(warning := warning);
    }
    var (text, id) := Transcript.ExtractYoutubeText(url, captions);
    if text.None? || id.None? {
      return Quiet.(error := Some(YoutubeError));
    }
    view := StreamRefinement(cfg, text.value, Prompt.VideoTranscript, VideoFileName(id.value), generate);
  }

  /** The PDF tab (refiner.py:133-161). */
  method RefineDocument(cfg: Config, upload: Option<Upload>, generate: Request -> Option<seq<string>>)
    returns (view: TabView)
    ensures cfg.apiKey == "" ==> view == Quiet.(warning := Some(MissingApiKey))
    ensures cfg.apiKey != "" && upload.None? ==> view == Quiet.(warning := Some(MissingFile))
    ensures cfg.apiKey != "" && upload.Some? ==>
      match PdfText.DocumentText(upload.value.document)
      case Some(text) =>
        Refined(view, cfg, text, Prompt.PdfDocument, DocumentFileName(upload.value.name), generate)
      case None => view == Quiet.(error := Some(PdfError))
  {
    var warning := Gate(cfg.apiKey, upload.Some?, MissingFile);
    if warning.Some? {
      return Quiet.(warning := warning);
    }
    var text := PdfText.ExtractPdfText(upload.value.document);
    if text.None? {
      return Quiet.(error := Some(PdfError));
    }
    view := StreamRefinement(cfg, text.value, Prompt.PdfDocument,
                             DocumentFileName(upload.value.name), generate);
  }

  /** The model is asked exactly when the extracted text is non-empty; the
      request carries the whole text, recoverable from its prompt. */
  lemma RequestOnlyForText(view: TabView, cfg: Config, rawText: string, contentType: string,
                           fileName: string, generate: Request -> Option<seq<string>>)
    requires Refined(view, cfg, rawText, contentType, fileName, generate)
    ensures view.request.Some? <==> rawText != ""
    ensures view.request.Some? ==>
      Prompt.RawTextOf(view.request.value.prompt, contentType) == Some(rawText)
    ensures view.download.Some? ==> view.request.Some? && generate(view.request.value).Some?
  {
    if rawText != "" {
      Prompt.RawTextRoundTrip(rawText, contentType);
    }
  }

  /** Each render extends the previous one, so the rendered length never
      decreases; the download is the last render, the whole stream. */
  lemma RendersGrow(view: TabView, cfg: Config, rawText: string, contentType: string,
                    fileName: string, generate: Request -> Option<seq<string>>)
    requires Refined(view, cfg, rawText, contentType, fileName, generate)
    ensures forall j, k :: 0 <= j <= k < |view.shown| ==> view.shown[j] <= view.shown[k]
    ensures view.download.Some? && view.shown != [] ==>
      view.download.value.data == view.shown[|view.shown| - 1]
  {
    if rawText != "" {
      var req := Request(cfg.apiKey, cfg.modelId, Prompt.BuildPrompt(rawText, contentType));
      if generate(req).Some? {
        var chunks := generate(req).value;
        forall j, k | 0 <= j <= k < |view.shown|
          ensures view.shown[j] <= view.shown[k]
        {
          Stream.ConcatPrefix(chunks, j + 1, k + 1);
        }
        assert chunks[..|chunks|] == chunks;
      }
    }
  }

  /** A PDF with at least one readable page is always sent to the model,
      even when every page is blank: the newlines make the text truthy. */
  lemma BlankPagesStillSent(view: TabView, cfg: Config, doc: PdfText.PdfDocument,
                            fileName: string, generate: Request -> Option<seq<string>>)
    requires doc.Pages? && |doc.pages| > 0
    requires PdfText.DocumentText(doc).Some?
    requires Refined(view, cfg, PdfText.DocumentText(doc).value, Prompt.PdfDocument, fileName, generate)
    ensures view.request.Some?
    ensures view.extractedChars == Some(|PdfText.DocumentText(doc).value|)
  {
    PdfText.PagesTextNonEmpty(PdfText.PageTexts(doc.pages));
  }

  /** Captions "Hello " and "world." streamed back as "# Title\n" and
      "Body text." render as "# Title\n", then "# Title\nBody text.", and
      the latter is offered for download. */
  lemma HelloWorldScenario(view: TabView, cfg: Config, fileName: string,
                           generate: Request -> Option<seq<string>>)
    requires generate(Request(cfg.apiKey, cfg.modelId,
      Prompt.BuildPrompt("Hello  world.", Prompt.VideoTranscript))) == Some(["# Title\n", "Body text."])
    requires Refined(view, cfg, Transcript.Join(["Hello ", "world."]), Prompt.VideoTranscript,
                     fileName, generate)
    ensures view.shown == ["# Title\n", "# Title\nBody text."]
    ensures view.download == Some(Download("# Title\nBody text.", fileName, Markdown))
  {
    Transcript.HelloWorld();
    var chunks := ["# Title\n", "Body text."];
    assert chunks[..1] == ["# Title\n"] && chunks[..1][..0] == [];
    assert chunks[..2] == chunks;
    assert Stream.Concat(chunks[..1]) == "# Title\n";
    assert Stream.Concat(chunks) == "# Title\nBody text.";
  }
}
