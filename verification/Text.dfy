/** Characters of names and versions, and the concatenation of texts. */
module Text {

  predicate IsLower(c: char) {
    'a' <= c <= 'z'
  }

  predicate IsDigit(c: char) {
    '0' <= c <= '9'
  }

  predicate IsLowerAlnum(c: char) {
    IsLower(c) || IsDigit(c)
  }

  predicate IsLowerAlnumOrDash(c: char) {
    IsLowerAlnum(c) || c == '-'
  }

  lemma Associative(a: string, b: string, c: string)
    ensures a + b + c == a + (b + c)
  {
  }

  lemma Halves(s: string, n: nat)
    requires n <= |s|
    ensures s == s[..n] + s[n..]
  {
  }
}
