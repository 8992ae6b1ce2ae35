/** Optional values, and the text normalisation every domain model applies to its string fields. */
module Text {

  datatype Option<+T> = None | Some(value: T)

  /** The code points Python's `str.strip` treats as whitespace. */
  predicate IsSpace(c: char) {
    var n := c as int;
    || 0x09 <= n <= 0x0D || 0x1C <= n <= 0x20 || n == 0x85 || n == 0xA0 || n == 0x1680
    || 0x2000 <= n <= 0x200A || n == 0x2028 || n == 0x2029 || n == 0x202F || n == 0x205F || n == 0x3000
  }

  function StripLeft(s: string): string {
    if s != [] && IsSpace(s[0]) then StripLeft(s[1..]) else s
  }

  function StripRight(s: string): string {
    if s != [] && IsSpace(s[|s| - 1]) then StripRight(s[..|s| - 1]) else s
  }

  function Strip(s: string): string {
    StripRight(StripLeft(s))
  }

  /** A text that strip leaves alone: no whitespace at either end. */
  predicate Trimmed(s: string) {
    s == [] || (!IsSpace(s[0]) && !IsSpace(s[|s| - 1]))
  }

  /** Nothing but whitespace between the two positions. */
  predicate BlankBetween(s: string, lo: nat, hi: nat)
    requires lo <= hi <= |s|
  {
    forall k :: lo <= k < hi ==> IsSpace(s[k])
  }

  predicate Blank(s: string) {
    BlankBetween(s, 0, |s|)
  }

  lemma {:induction false} StripLeftCuts(s: string) returns (i: nat)
    ensures i <= |s| && StripLeft(s) == s[i..] && BlankBetween(s, 0, i)
    ensures i < |s| ==> !IsSpace(s[i])
  {
    if s != [] && IsSpace(s[0]) {
      var t := s[1..];
      i := StripLeftCuts(t);
      assert forall k :: 0 < k < i + 1 ==> s[k] == t[k - 1];
      i := i + 1;
    } else {
      i := 0;
    }
  }

  lemma {:induction false} StripRightCuts(s: string) returns (j: nat)
    ensures j <= |s| && StripRight(s) == s[..j] && BlankBetween(s, j, |s|)
    ensures j > 0 ==> !IsSpace(s[j - 1])
  {
    if s != [] && IsSpace(s[|s| - 1]) {
      var t := s[..|s| - 1];
      j := StripRightCuts(t);
      assert forall k :: j <= k < |t| ==> s[k] == t[k];
      assert t[..j] == s[..j];
    } else {
      j := |s|;
      assert s[..j] == s;
    }
  }

  /** Strip removes exactly the outer whitespace: what remains is trimmed, contiguous, and loses only blanks. */
  lemma StripCutsOnlyBlanks(s: string) returns (i: nat, j: nat)
    ensures i <= j <= |s| && Strip(s) == s[i..j] && BlankBetween(s, 0, i) && BlankBetween(s, j, |s|)
    ensures Trimmed(Strip(s))
  {
    i := StripLeftCuts(s);
    var t := s[i..];
    var k := StripRightCuts(t);
    j := i + k;
    assert forall m :: j <= m < |s| ==> s[m] == t[m - i];
    assert t[..k] == s[i..j];
    if k > 0 {
      assert t[k - 1] == s[j - 1];
    }
  }

  /** Normalising twice is normalising once, so re-validating a stored text never changes it. */
  lemma StripIdempotent(s: string)
    ensures Trimmed(s) ==> Strip(s) == s
    ensures Strip(Strip(s)) == Strip(s)
  {
    var i, j := StripCutsOnlyBlanks(s);
    TrimmedIsFixed(s);
    TrimmedIsFixed(Strip(s));
  }

  lemma TrimmedIsFixed(s: string)
    ensures Trimmed(s) ==> Strip(s) == s
  {
  }

  /** `require_non_empty_text`: the trimmed text, or a rejection when nothing remains. */
  function RequireText(s: string): Option<string> {
    if Strip(s) == [] then None else Some(Strip(s))
  }

  /** A text that `require_non_empty_text` has already produced. */
  predicate Normal(s: string) {
    s != [] && Trimmed(s)
  }

  lemma RequireTextIsStable(s: string)
    ensures RequireText(s).Some? ==> Normal(RequireText(s).value)
    ensures Normal(s) ==> RequireText(s) == Some(s)
    ensures RequireText(s).None? <==> Blank(s)
  {
    var i, j := StripCutsOnlyBlanks(s);
    StripIdempotent(s);
    if i < j {
      assert s[i] == Strip(s)[0];
    }
  }

  /** String comparison by code point. */
  predicate LexLe(a: string, b: string) {
    a == [] || (b != [] && (a[0] < b[0] || (a[0] == b[0] && LexLe(a[1..], b[1..]))))
  }

  lemma {:induction false} LexTotal(a: string, b: string)
    ensures LexLe(a, b) || LexLe(b, a)
    ensures LexLe(a, b) && LexLe(b, a) ==> a == b
    decreases |a|
  {
    if a != [] && b != [] && a[0] == b[0] {
      LexTotal(a[1..], b[1..]);
      assert a == [a[0]] + a[1..] && b == [b[0]] + b[1..];
    }
  }

  lemma {:induction false} LexTransitive(a: string, b: string, c: string)
    requires LexLe(a, b) && LexLe(b, c)
    ensures LexLe(a, c)
    decreases |a|
  {
    if a != [] && a[0] == b[0] == c[0] {
      LexTransitive(a[1..], b[1..], c[1..]);
    }
  }

  /** A common prefix does not change the comparison. */
  lemma {:induction false} LexAfterPrefix(prefix: string, a: string, b: string)
    ensures LexLe(prefix + a, prefix + b) <==> LexLe(a, b)
    decreases |prefix|
  {
    if prefix == [] {
      assert prefix + a == a && prefix + b == b;
    } else {
      LexAfterPrefix(prefix[1..], a, b);
      assert (prefix + a)[1..] == prefix[1..] + a && (prefix + b)[1..] == prefix[1..] + b;
    }
  }
}
