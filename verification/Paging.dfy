/** Offset and limit windows of a sequence. */
module Paging {

  function Min(a: int, b: int): int {
    if a < b then a else b
  }

  function Max(a: int, b: int): int {
    if a < b then b else a
  }

  /** What is left after skipping `offset` elements and taking at most `limit`. */
  function Window<T>(s: seq<T>, offset: nat, limit: nat): seq<T> {
    s[Min(offset, |s|)..Min(offset + limit, |s|)]
  }

  /** What a drain loop has read after one more page. */
  lemma PageExtends<T>(s: seq<T>, offset: nat, size: nat)
    requires offset <= |s|
    ensures var page := Window(s, offset, size);
      && |page| == Min(size, |s| - offset) && s[..offset] + page == s[..offset + |page|]
      && (|page| < size ==> s[..offset + |page|] == s)
  {
  }

  function Take<T>(s: seq<T>, n: nat): seq<T> {
    s[..Min(n, |s|)]
  }

  /** A window depends on nothing behind its end. */
  lemma EqualPrefixesEqualWindows<T>(s: seq<T>, t: seq<T>, offset: nat, limit: nat)
    requires Take(s, offset + limit) == Take(t, offset + limit)
    ensures Window(s, offset, limit) == Window(t, offset, limit)
  {
  }

  lemma WindowSplits<T>(s: seq<T>, offset: nat, a: nat, b: nat)
    ensures Window(s, offset, a) + Window(s, offset + a, b) == Window(s, offset, a + b)
  {
  }

  /** A window over two joined lists: the part in the first, then what still fits of the second. */
  lemma WindowOfJoin<T>(a: seq<T>, b: seq<T>, offset: nat, limit: nat)
    ensures |Window(a, offset, limit)| <= limit
    ensures Window(a + b, offset, limit)
         == Window(a, offset, limit) + Window(b, Max(0, offset - |a|), limit - |Window(a, offset, limit)|)
  {
  }

  /** The first `n` pages of a given size, one after another. */
  function Pages<T>(s: seq<T>, size: nat, n: nat): seq<T> {
    if n == 0 then [] else Pages(s, size, n - 1) + Window(s, (n - 1) * size, size)
  }

  /** Pages neither skip nor repeat anything. */
  lemma {:induction false} PagesConcatenate<T>(s: seq<T>, size: nat, n: nat)
    ensures Pages(s, size, n) == Window(s, 0, n * size)
  {
    if n > 0 {
      PagesConcatenate(s, size, n - 1);
      WindowSplits(s, 0, (n - 1) * size, size);
      assert (n - 1) * size + size == n * size;
    }
  }

  lemma PagesReachTheEnd<T>(s: seq<T>, size: nat, n: nat)
    requires n * size >= |s|
    ensures Pages(s, size, n) == s
  {
    PagesConcatenate(s, size, n);
  }
}
