/** The transcript half of `extract_youtube_text` (refiner.py:39-46): the id
    is recognized, the caption track for it is requested from the transcript
    service, and the caption texts are joined with single spaces. */
module Transcript {
  import opened Wrappers
  import opened Strings
  import VideoId

  /** One caption record as the transcript service delivers it. Only `text`
      is read by the pipeline; the timing fields are carried as given. */
  datatype Caption = Caption(text: string, start: real, duration: real)

  /** What the transcript service answers for a video id: its caption
      records in time order, or a failure (no captions, a private or
      region-locked video, a network error). */
  datatype CaptionResponse = Captions(records: seq<Caption>) | Unavailable

  /** The list comprehension `[t['text'] for t in transcript]`. */
  function Texts(records: seq<Caption>): (r: seq<string>)
    ensures |r| == |records|
    ensures forall i :: 0 <= i < |records| ==> r[i] == records[i].text
  {
    seq(|records|, i requires 0 <= i < |records| => records[i].text)
  }

  /** `" ".join(parts)`: the parts in order with one space between
      neighbours, nothing trimmed. */
  function Join(parts: seq<string>): (joined: string)
  {
    if |parts| == 0 then ""
    else if |parts| == 1 then parts[0]
    else parts[0] + " " + Join(parts[1..])
  }

  /** Joining n >= 1 parts adds exactly n - 1 characters. */
  lemma {:induction false} JoinLength(parts: seq<string>)
    requires |parts| > 0
    ensures |Join(parts)| == TotalLength(parts) + |parts| - 1
  {
    if |parts| > 1 {
      JoinLength(parts[1..]);
      assert parts == [parts[0]] + parts[1..];
      TotalLengthAppend([parts[0]], parts[1..]);
    }
  }

  /** Joining n >= 1 parts inserts exactly n - 1 spaces: the spaces of the
      result are those of the parts plus one per gap. */
  lemma {:induction false} JoinSpaces(parts: seq<string>)
    requires |parts| > 0
    ensures Count(Join(parts), ' ') == TotalCount(parts, ' ') + |parts| - 1
  {
    if |parts| > 1 {
      JoinSpaces(parts[1..]);
      CountAppend(parts[0] + " ", Join(parts[1..]), ' ');
      CountAppend(parts[0], " ", ' ');
      assert Count(" ", ' ') == 1 by { assert " "[1..] == ""; }
    }
  }

  /** Joining is left-to-right: one more part adds a space and that part at
      the end. */
  lemma {:induction false} JoinSnoc(parts: seq<string>, last: string)
    requires |parts| > 0
    ensures Join(parts + [last]) == Join(parts) + " " + last
  {
    if |parts| == 1 {
      assert (parts + [last])[1..] == [last];
    } else {
      assert (parts + [last])[1..] == parts[1..] + [last];
      JoinSnoc(parts[1..], last);
    }
  }

  /** `s.split(" ")`: the pieces between single spaces, empty pieces kept. */
  function Split(s: string): (r: seq<string>)
    ensures |r| > 0
  {
    if s == "" then [""]
    else if s[0] == ' ' then [""] + Split(s[1..])
    else var rest := Split(s[1..]); [[s[0]] + rest[0]] + rest[1..]
  }

  lemma {:induction false} SplitNoSpace(s: string)
    requires Count(s, ' ') == 0
    ensures Split(s) == [s]
  {
    if s != "" {
      SplitNoSpace(s[1..]);
      assert [s[0]] + s[1..] == s;
    }
  }

  lemma {:induction false} SplitAtSpace(a: string, b: string)
    requires Count(a, ' ') == 0
    ensures Split(a + " " + b) == [a] + Split(b)
  {
    if a == "" {
      assert a + " " + b == [' '] + b;
      assert (a + " " + b)[1..] == b;
    } else {
      assert (a + " " + b)[1..] == a[1..] + " " + b;
      SplitAtSpace(a[1..], b);
      assert [a[0]] + a[1..] == a;
    }
  }

  /** Splitting inverts joining when no caption text holds a space of its
      own: the caption texts are recovered in order. */
  lemma {:induction false} SplitJoin(parts: seq<string>)
    requires |parts| > 0
    requires forall i :: 0 <= i < |parts| ==> Count(parts[i], ' ') == 0
    ensures Split(Join(parts)) == parts
  {
    if |parts| == 1 {
      SplitNoSpace(parts[0]);
    } else {
      SplitAtSpace(parts[0], Join(parts[1..]));
      SplitJoin(parts[1..]);
      assert parts == [parts[0]] + parts[1..];
    }
  }

  /** Caption texts are not trimmed, so a text ending in a space meets the
      joining space and the result holds two in a row. */
  lemma HelloWorld()
    ensures Join(["Hello ", "world."]) == "Hello  world."
  {
    assert ["Hello ", "world."][1..] == ["world."];
  }

  /** `extract_youtube_text(url)`: the joined transcript and the video id,
      or `(None, None)` when no id is recognized (calling `.group` on the
      absent match raises inside the `try`) or the transcript service fails.
      Nothing is raised to the caller. */
  function ExtractYoutubeText(url: string, captions: string -> CaptionResponse)
    : (r: (Option<string>, Option<string>))
    ensures r.0.Some? <==> r.1.Some?
    ensures VideoId.FindVideoId(url).None? ==> r == (None, None)
    ensures r.1.Some? ==> VideoId.FindVideoId(url) == r.1 && captions(r.1.value).Captions?
    ensures r.1.Some? ==> r.0.value == Join(Texts(captions(r.1.value).records))
    ensures VideoId.FindVideoId(url).Some? && captions(VideoId.FindVideoId(url).value).Unavailable?
      ==> r == (None, None)
    ensures VideoId.FindVideoId(url).Some? && captions(VideoId.FindVideoId(url).value).Captions?
      ==> r == (Some(Join(Texts(captions(VideoId.FindVideoId(url).value).records))), VideoId.FindVideoId(url))
  {
    match VideoId.FindVideoId(url)
    case None => (None, None)
    case Some(id) =>
      match captions(id)
      case Unavailable => (None, None)
      case Captions(records) => (Some(Join(Texts(records))), Some(id))
  }
}
