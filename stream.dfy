/** The fold of the model's streamed chunks into `full_response`
    (refiner.py:113-120, repeated at refiner.py:146-153): each chunk's text
    is appended and the whole accumulator is rendered after every chunk. */
module Stream {
  import opened Strings

  /** The chunk texts in delivery order, concatenated. */
  function Concat(chunks: seq<string>): (text: string)
  {
    if chunks == [] then "" else Concat(chunks[..|chunks| - 1]) + chunks[|chunks| - 1]
  }

  lemma ConcatSnoc(chunks: seq<string>, last: string)
    ensures Concat(chunks + [last]) == Concat(chunks) + last
  {
    assert (chunks + [last])[..|chunks|] == chunks;
  }

  lemma {:induction false} ConcatAppend(a: seq<string>, b: seq<string>)
    ensures Concat(a + b) == Concat(a) + Concat(b)
    decreases |b|
  {
    if b == [] {
      assert a + b == a;
    } else {
      var init, last := b[..|b| - 1], b[|b| - 1];
      assert b == init + [last];
      assert a + b == (a + init) + [last];
      ConcatSnoc(a + init, last);
      ConcatAppend(a, init);
      ConcatSnoc(init, last);
    }
  }

  lemma {:induction false} ConcatLength(chunks: seq<string>)
    ensures |Concat(chunks)| == TotalLength(chunks)
  {
    if chunks != [] {
      ConcatLength(chunks[..|chunks| - 1]);
    }
  }

  /** The accumulator after j chunks is a prefix of the one after k >= j
      chunks, so what is rendered never loses text. */
  lemma ConcatPrefix(chunks: seq<string>, j: nat, k: nat)
    requires j <= k <= |chunks|
    ensures Concat(chunks[..j]) <= Concat(chunks[..k])
  {
    assert chunks[..k] == chunks[..j] + chunks[j..k];
    ConcatAppend(chunks[..j], chunks[j..k]);
  }

  /** Cutting a text into chunks anywhere and concatenating them gives the
      text back: the fold neither drops, repeats nor reorders chunks. */
  lemma {:induction false} ConcatOfCuts(s: string, cuts: seq<nat>)
    requires forall i :: 0 <= i < |cuts| ==> cuts[i] <= |s|
    requires forall i, j :: 0 <= i < j < |cuts| ==> cuts[i] <= cuts[j]
    ensures Concat(Pieces(s, cuts)) == s
    decreases |cuts|
  {
    if cuts != [] {
      var last := cuts[|cuts| - 1];
      ConcatOfCuts(s[..last], cuts[..|cuts| - 1]);
      assert Pieces(s, cuts)[..|cuts|] == Pieces(s[..last], cuts[..|cuts| - 1]);
      assert s == s[..last] + s[last..];
    }
  }

  /** The pieces of s between consecutive cut positions: s[..c0],
      s[c0..c1], ..., s[ck..]. */
  function Pieces(s: string, cuts: seq<nat>): (r: seq<string>)
    requires forall i :: 0 <= i < |cuts| ==> cuts[i] <= |s|
    requires forall i, j :: 0 <= i < j < |cuts| ==> cuts[i] <= cuts[j]
    ensures |r| == |cuts| + 1
    decreases |cuts|
  {
    if cuts == [] then [s]
    else
      var last := cuts[|cuts| - 1];
      Pieces(s[..last], cuts[..|cuts| - 1]) + [s[last..]]
  }

  /** The loop `for chunk in stream: full_response += chunk.text;
      output_container.markdown(full_response)`. `shown` is the sequence
      of rendered values, `full` the final accumulator. */
  method Aggregate(chunks: seq<string>) returns (shown: seq<string>, full: string)
    ensures |shown| == |chunks|
    ensures forall k :: 0 <= k < |chunks| ==> shown[k] == Concat(chunks[..k + 1])
    ensures full == Concat(chunks)
    ensures |chunks| > 0 ==> full == shown[|chunks| - 1]
    ensures forall j, k :: 0 <= j <= k < |shown| ==> shown[j] <= shown[k]
  {
    full := "";
    shown := [];
    for i := 0 to |chunks|
      invariant |shown| == i
      invariant full == Concat(chunks[..i])
      invariant forall k :: 0 <= k < i ==> shown[k] == Concat(chunks[..k + 1])
    {
      assert chunks[..i + 1][..i] == chunks[..i];
      full := full + chunks[i];
      shown := shown + [full];
    }
    assert chunks[..|chunks|] == chunks;
    forall j, k | 0 <= j <= k < |shown|
      ensures shown[j] <= shown[k]
    {
      ConcatPrefix(chunks, j + 1, k + 1);
    }
  }
}
