/** `extract_pdf_text` (refiner.py:48-57): every page's text layer, in page
    order, each followed by a newline, accumulated in a loop. Parsing and
    text extraction belong to the PDF library; their results are inputs. */
module PdfText {
  import opened Wrappers
  import opened Strings

  /** What the PDF library makes of an uploaded file: a parse failure
      (corrupt or encrypted file), or its pages in document order, where a
      page whose text layer could not be extracted is `None`. */
  datatype PdfDocument = Unparseable | Pages(pages: seq<Option<string>>)

  /** The accumulator after the given page texts: `page + "\n"` for each
      page, appended in order. */
  function PagesText(texts: seq<string>): (text: string)
  {
    if texts == [] then "" else PagesText(texts[..|texts| - 1]) + texts[|texts| - 1] + "\n"
  }

  predicate AllReadable(pages: seq<Option<string>>)
  {
    forall i :: 0 <= i < |pages| ==> pages[i].Some?
  }

  function PageTexts(pages: seq<Option<string>>): (r: seq<string>)
    requires AllReadable(pages)
    ensures |r| == |pages|
    ensures forall i :: 0 <= i < |pages| ==> Some(r[i]) == pages[i]
  {
    seq(|pages|, i requires 0 <= i < |pages| => pages[i].value)
  }

  /** The value `extract_pdf_text` returns: `None` once any step raised,
      otherwise the accumulated page texts. */
  function DocumentText(doc: PdfDocument): (r: Option<string>)
  {
    if doc.Pages? && AllReadable(doc.pages) then Some(PagesText(PageTexts(doc.pages))) else None
  }

  /** The loop of refiner.py:51-54. A page whose extraction raises ends the
      loop: the handler at refiner.py:55-57 returns `None`. */
  method ExtractPdfText(doc: PdfDocument) returns (r: Option<string>)
    ensures r.Some? <==> doc.Pages? && AllReadable(doc.pages)
    ensures r.Some? ==> r.value == PagesText(PageTexts(doc.pages))
    ensures r == DocumentText(doc)
  {
    if doc.Unparseable? {
      return None;
    }
    var pages := doc.pages;
    var text := "";
    for i := 0 to |pages|
      invariant AllReadable(pages[..i])
      invariant text == PagesText(PageTexts(pages[..i]))
    {
      match pages[i]
      case None =>
        return None;
      case Some(page) =>
        assert pages[..i + 1][..i] == pages[..i];
        assert PageTexts(pages[..i + 1])[..i] == PageTexts(pages[..i]);
        text := text + page + "\n";
    }
    assert pages[..|pages|] == pages;
    return Some(text);
  }

  lemma PagesTextSnoc(texts: seq<string>, last: string)
    ensures PagesText(texts + [last]) == PagesText(texts) + last + "\n"
  {
    assert (texts + [last])[..|texts|] == texts;
  }

  lemma {:induction false} PagesTextAppend(a: seq<string>, b: seq<string>)
    ensures PagesText(a + b) == PagesText(a) + PagesText(b)
    decreases |b|
  {
    if b == [] {
      assert a + b == a;
    } else {
      var init, last := b[..|b| - 1], b[|b| - 1];
      assert b == init + [last];
      assert a + b == (a + init) + [last];
      PagesTextSnoc(a + init, last);
      PagesTextAppend(a, init);
      PagesTextSnoc(init, last);
    }
  }

  /** The text is as long as all page texts together plus one newline per
      page; in particular zero pages give the empty string. */
  lemma {:induction false} PagesTextLength(texts: seq<string>)
    ensures |PagesText(texts)| == TotalLength(texts) + |texts|
  {
    if texts != [] {
      PagesTextLength(texts[..|texts| - 1]);
    }
  }

  /** Page i's text appears whole, right after the text of pages 0..i-1,
      and is followed by a newline. */
  lemma PageInPlace(texts: seq<string>, i: nat)
    requires i < |texts|
    ensures var start := |PagesText(texts[..i])|;
      && start + |texts[i]| < |PagesText(texts)|
      && PagesText(texts)[..start] == PagesText(texts[..i])
      && PagesText(texts)[start..start + |texts[i]|] == texts[i]
      && PagesText(texts)[start + |texts[i]|] == '\n'
  {
    assert texts == texts[..i] + [texts[i]] + texts[i + 1..];
    PagesTextAppend(texts[..i] + [texts[i]], texts[i + 1..]);
    PagesTextAppend(texts[..i], [texts[i]]);
    assert PagesText([texts[i]]) == texts[i] + "\n" by {
      assert [texts[i]][..0] == [];
    }
  }

  /** A document with at least one page never yields the empty string, even
      when every page is blank: each page contributes its newline. */
  lemma PagesTextNonEmpty(texts: seq<string>)
    requires |texts| > 0
    ensures PagesText(texts) != ""
  {
    PagesTextLength(texts);
  }
}
