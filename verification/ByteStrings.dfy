/** Raw bytes. */
module ByteStrings {

  newtype Byte = x: int | 0 <= x < 256

  type Bytes = seq<Byte>

  predicate HasPrefix(s: Bytes, prefix: Bytes) {
    |prefix| <= |s| && s[..|prefix|] == prefix
  }

  /** Two different prefixes that already differ at some position exclude each other. */
  lemma PrefixesExclude(s: Bytes, a: Bytes, b: Bytes, k: nat)
    requires k < |a| && k < |b| && a[k] != b[k]
    ensures !(HasPrefix(s, a) && HasPrefix(s, b))
  {
  }
}
