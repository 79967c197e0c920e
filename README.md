# Content Refiner: a verified model of its text pipeline

Content Refiner is a Streamlit app that turns a YouTube transcript or a PDF
into a structured Markdown reference document by streaming a rewrite from a
Gemini model. Under the UI wiring sits a small deterministic pipeline, and
this project models it in Dafny:

- **Video-id recognition** (`VideoId`): the search of
  `(?:v=|/)([0-9A-Za-z_-]{11}).*` over the URL, with `re.search`
  semantics. The leftmost start position where the marker `v=` or `/` is
  followed by eleven id characters wins, and the id is exactly those eleven
  characters.
- **Transcript extraction** (`Transcript`): the caption texts joined with
  `" "`, and the `(None, None)` fallback of `extract_youtube_text`.
- **PDF text accumulation** (`PdfText`): the loop that appends each page's
  text and a newline, with its `None` fallback.
- **Prompt construction** (`Prompt`): the fixed template with the content
  type and the raw text interpolated verbatim, whitespace included.
- **Stream aggregation** (`Stream`): the fold of chunk texts into
  `full_response`, rendered after every chunk.
- **The two tab handlers** (`Tabs`): the gating chain, the shared
  request/stream/download step, and the download file names.

External services are inputs. The transcript service is a function from a
video id to a `CaptionResponse`. The PDF library's result is a
`PdfDocument`. The Gemini call is a function from a `Request` to an optional
chunk sequence (`None` when `generate_content` raised). What a button press
puts on screen (warning, error, info count, successive renders, download
offer) is recorded in a `TabView` value.

Behaviour of the code that the model keeps as it is:

- The `/` alternative accepts any path segment that starts with eleven id
  characters. So `https://www.youtube.com/attribution_link?...` yields the id
  `attribution`. The model keeps this leftmost-match behaviour.
- An empty transcript is falsy at refiner.py:109, so nothing more happens and
  no message is shown; the empty text is not sent to the model.
- A PDF with at least one page always gives a non-empty text, because every
  page adds a newline. So blank pages are still sent to the model. A PDF with
  zero pages gives `""` and is silently dropped.
- `genai.configure` and `genai.GenerativeModel` (refiner.py:63-64) run
  outside the `try` of `refine_content`. Only a failure of
  `generate_content` is caught.
- There is no handler around the chunk loop, so a stream that fails part way
  has no modelled outcome.

## Model

| member | source | states |
|---|---|---|
| VideoId.SearchFrom | refiner.py:41 | the scan returns a start position that matches, and no position between the starting point and it matches; `None` only when no later position matches |
| VideoId.FindVideoId | refiner.py:41 | `None` exactly when no position matches; otherwise the id is group 1 at the leftmost matching position, is 11 characters long, and every character is in `[0-9A-Za-z_-]` |
| VideoId.FindsLeftmost | refiner.py:41 | any leftmost matching position determines the returned id |
| VideoId.IdFollowsMarker | refiner.py:41 | a returned id occurs in the URL immediately after `/` or `v=` |
| VideoId.AppendKeepsId | refiner.py:41 | once a URL yields an id, appending any text (more id characters, query parameters, a playlist) leaves the id unchanged |
| VideoId.MarkerAtStart | refiner.py:41 | `v=` or `/` followed by a run of 11 or more id characters yields the first 11 of them |
| Transcript.ExtractYoutubeText | refiner.py:39-46 | text and id are both present or both absent; with no recognizable id the result is `(None, None)` whatever the service would answer; a recognized id whose captions are available gives that id together with the join of its caption texts; a service failure gives `(None, None)` |
| Transcript.JoinLength | refiner.py:43 | joining n >= 1 caption texts adds exactly n - 1 characters to their total length |
| Transcript.JoinSpaces | refiner.py:43 | joining n >= 1 caption texts inserts exactly n - 1 spaces |
| Transcript.JoinSnoc | refiner.py:43 | joining is in order: one more caption adds a space and that caption at the end |
| Transcript.SplitJoin | refiner.py:43 | when no caption text holds a space, splitting the joined text on spaces gives the captions back in order |
| Transcript.HelloWorld | refiner.py:43 | texts are not trimmed: `["Hello ", "world."]` joins to `"Hello  world."` |
| PdfText.ExtractPdfText | refiner.py:48-57 | returns text exactly when the file parses and every page's text can be extracted; the text is the in-order accumulation of each page text followed by `"\n"` |
| PdfText.PagesTextAppend | refiner.py:51-54 | accumulating two runs of pages gives the concatenation of their texts, so page order is kept |
| PdfText.PagesTextLength | refiner.py:51-54 | the text's length is the total page-text length plus the page count; zero pages give `""` |
| PdfText.PageInPlace | refiner.py:51-54 | page i's text appears whole, right after the text of the earlier pages, and is followed by a newline |
| PdfText.PagesTextNonEmpty | refiner.py:51-54 | one page or more never gives the empty string |
| Prompt.BuildPromptLayout | refiner.py:68-83 | the prompt is fixed template text with the content type and the whole raw text at fixed places, the delimiter lines directly before the raw text, and a length of template plus both values |
| Prompt.RawTextRoundTrip | refiner.py:68-83 | the raw text is recovered whole from the prompt, whatever it contains |
| Prompt.BuildPromptInjective | refiner.py:68-83 | different raw texts of one content type give different prompts |
| Prompt.LabelsGiveDistinctPrompts | refiner.py:68-69 | a video prompt and a PDF prompt never coincide |
| Stream.ConcatAppend | refiner.py:118-119 | folding two runs of chunks gives the concatenation of their results |
| Stream.ConcatLength | refiner.py:118-119 | the folded text is as long as all chunk texts together |
| Stream.ConcatPrefix | refiner.py:118-120 | the text after j chunks is a prefix of the text after k >= j chunks |
| Stream.ConcatOfCuts | refiner.py:118-119 | a text cut into chunks at any positions folds back to itself |
| Stream.Aggregate | refiner.py:113-120 | one render per chunk; render k is the concatenation of the first k + 1 chunks; each render is a prefix of every later one; the final value is the concatenation of all chunks and equals the last render |
| Tabs.VideoFileNameRoundTrip | refiner.py:126 | `refined_video_{id}.md` gives back the video id |
| Tabs.DocumentFileNameRoundTrip | refiner.py:159 | `refined_{name}.md` gives back the uploaded file's name |
| Tabs.StreamRefinement | refiner.py:109-128 | an empty text leaves the screen quiet and sends nothing; otherwise the length is reported and the prompt is sent; no stream means an error with no render and no download; a stream means the renders are its prefixes and its concatenation is offered under the given name as `text/markdown` |
| Tabs.RefineVideo | refiner.py:100-128 | an empty API key gives only that warning; with a key, an empty URL gives only its warning; otherwise a failed extraction shows only an error, and a successful one continues as `StreamRefinement` with the `Video Transcript` label and `refined_video_{id}.md` |
| Tabs.RefineDocument | refiner.py:133-161 | an empty API key gives only that warning; with a key, a missing file gives only its warning; otherwise a failed extraction shows only an error, and a successful one continues with the `PDF Document` label and `refined_{name}.md` |
| Tabs.RequestOnlyForText | refiner.py:109-117 | the model is asked exactly when the extracted text is non-empty; the request's prompt carries the whole text; a download exists only after a request that returned a stream |
| Tabs.RendersGrow | refiner.py:118-127 | each render extends the previous one; the download data equals the last render |
| Tabs.BlankPagesStillSent | refiner.py:142-143 | a readable PDF with at least one page is always sent to the model, even if every page is blank |
| Tabs.HelloWorldScenario | refiner.py:113-127 | captions `"Hello "` and `"world."` streamed back as `"# Title\n"` and `"Body text."` render as `"# Title\n"`, then `"# Title\nBody text."`, and the latter is downloaded |

## Left out

- Streamlit page setup, sidebar, tabs, widgets, spinners and button presses (refiner.py:9-35, refiner.py:95-100, refiner.py:131-133) are UI. One press of each button is modelled, and its visible outcome is a `TabView` record.
- Message texts (`f"YouTube Error: {e}"` and the others) are not modelled. Only which message appears is recorded.
- `st.secrets` and the module-level `api_key`/`model_name` (refiner.py:21-32) are a `Config` parameter. The model name is an opaque string, not the two-entry choice list.
- `YouTubeTranscriptApi.get_transcript` (refiner.py:42) is a network call. It is the `captions` parameter, and any failure it raises is `Unavailable`.
- `PdfReader` and `page.extract_text()` (refiner.py:50-53) belong to a foreign library. Their results are the `PdfDocument` input, where a page that raises is `None`.
- `genai.configure`, `genai.GenerativeModel` and `generate_content` (refiner.py:63-64, refiner.py:87) are a network client. The call is the `generate` parameter, and `None` stands for a raised `generate_content`. A failure of the first two calls would escape the handler; that is not modelled.
- An exception raised while iterating the stream (refiner.py:118-120) has no handler in the code, so its behaviour is not modelled.
- `if stream:` (refiner.py:117, refiner.py:150) is modelled as "a stream was returned". Python truthiness of the response object is taken to be that.
- Chunks are modelled by their `.text` strings. Caption timing fields are carried as `real` values and are never read.
