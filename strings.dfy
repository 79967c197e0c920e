/** Small facts about strings shared by the extractors and the stream fold. */
module Strings {

  /** Sum of the lengths of a sequence of strings. */
  function TotalLength(parts: seq<string>): nat
  {
    if parts == [] then 0 else TotalLength(parts[..|parts| - 1]) + |parts[|parts| - 1]|
  }

  lemma {:induction false} TotalLengthAppend(a: seq<string>, b: seq<string>)
    ensures TotalLength(a + b) == TotalLength(a) + TotalLength(b)
    decreases |b|
  {
    if b == [] {
      assert a + b == a;
    } else {
      var init, last := b[..|b| - 1], b[|b| - 1];
      assert b == init + [last] && (init + [last])[..|init|] == init;
      assert a + b == (a + init) + [last] && ((a + init) + [last])[..|a + init|] == a + init;
      TotalLengthAppend(a, init);
    }
  }

  /** Number of occurrences of the character c in s. */
  function Count(s: string, c: char): nat
  {
    if s == "" then 0 else (if s[0] == c then 1 else 0) + Count(s[1..], c)
  }

  lemma {:induction false} CountAppend(a: string, b: string, c: char)
    ensures Count(a + b, c) == Count(a, c) + Count(b, c)
  {
    if a == "" {
      assert a + b == b;
    } else {
      assert (a + b)[1..] == a[1..] + b;
      CountAppend(a[1..], b, c);
    }
  }

  /** Sum of the occurrences of c over a sequence of strings. */
  function TotalCount(parts: seq<string>, c: char): nat
  {
    if parts == [] then 0 else Count(parts[0], c) + TotalCount(parts[1..], c)
  }
}
