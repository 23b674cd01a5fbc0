/** UTF-8 (section 3 of RFC 3629): strings as bytes and the boundaries between characters. */
module Utf8 {
  import opened Text

  type Byte = b: int | 0 <= b < 256

  function EncodeChar(ch: char): (r: seq<Byte>)
    ensures 1 <= |r| <= 4
    ensures !IsContinuation(r[0])
    ensures forall i :: 0 < i < |r| ==> IsContinuation(r[i])
    ensures |r| == 1 <==> ch as int < 0x80
  {
    var c := ch as int;
    if c < 0x80 then [c]
    else if c < 0x800 then [0xC0 + c / 64, 0x80 + c % 64]
    else if c < 0x10000 then [0xE0 + c / 4096, 0x80 + c / 64 % 64, 0x80 + c % 64]
    else [0xF0 + c / 262144, 0x80 + c / 4096 % 64, 0x80 + c / 64 % 64, 0x80 + c % 64]
  }

  /** The code point that one encoded character denotes, by the number of its bytes. */
  function CodePoint(r: seq<Byte>): int
    requires 1 <= |r| <= 4
  {
    if |r| == 1 then r[0] as int
    else if |r| == 2 then (r[0] as int - 0xC0) * 0x40 + (r[1] as int - 0x80)
    else if |r| == 3 then (r[0] as int - 0xE0) * 0x1000 + (r[1] as int - 0x80) * 0x40 + (r[2] as int - 0x80)
    else (r[0] as int - 0xF0) * 0x40000 + (r[1] as int - 0x80) * 0x1000 + (r[2] as int - 0x80) * 0x40 + (r[3] as int - 0x80)
  }

  lemma Sextets(c: nat)
    ensures c == c / 64 * 64 + c % 64
    ensures c == c / 4096 * 4096 + c / 64 % 64 * 64 + c % 64
    ensures c == c / 262144 * 262144 + c / 4096 % 64 * 4096 + c / 64 % 64 * 64 + c % 64
  {
    var (d, e) := (c / 64, c / 64 / 64);
    assert d == e * 64 + d % 64 && e == e / 64 * 64 + e % 64;
    assert e == c / 4096 && e / 64 == c / 262144;
  }

  /** The encoding can be read back, and its length and first byte are those of the code point's range. */
  lemma EncodedCodePoint(ch: char)
    ensures CodePoint(EncodeChar(ch)) == ch as int
    ensures var (c, r) := (ch as int, EncodeChar(ch));
            if c < 0x80 then |r| == 1
            else if c < 0x800 then |r| == 2 && 0xC0 <= r[0] < 0xE0
            else if c < 0x10000 then |r| == 3 && 0xE0 <= r[0] < 0xF0
            else |r| == 4 && 0xF0 <= r[0] < 0xF5
  {
    Sextets(ch as int);
  }

  predicate IsContinuation(b: Byte) {
    0x80 <= b < 0xC0
  }

  function Encode(s: string): seq<Byte> {
    if s == "" then [] else EncodeChar(s[0]) + Encode(s[1..])
  }

  /** The length of a string in bytes. */
  function Bytes(s: string): nat {
    |Encode(s)|
  }

  lemma {:induction false} EncodeConcat(a: string, b: string)
    ensures Encode(a + b) == Encode(a) + Encode(b)
  {
    if a == "" {
      assert a + b == b;
    } else {
      assert (a + b)[1..] == a[1..] + b;
      EncodeConcat(a[1..], b);
    }
  }

  /** A position at which a string may be cut. */
  predicate IsCharBoundary(bytes: seq<Byte>, pos: nat) {
    pos == 0 || pos == |bytes| || (pos < |bytes| && !IsContinuation(bytes[pos]))
  }

  /** The number of leading characters that fit into `n` bytes. */
  function FitCount(s: string, n: nat): (k: nat)
    ensures k <= |s|
  {
    if s == "" || |EncodeChar(s[0])| > n then 0 else 1 + FitCount(s[1..], n - |EncodeChar(s[0])|)
  }

  /** The longest prefix of whole characters that fits into `n` bytes. */
  function LongestPrefix(s: string, n: nat): string {
    s[..FitCount(s, n)]
  }

  /** It fits, and one more character would not. */
  lemma {:induction false} LongestPrefixIsLongest(s: string, n: nat, k: nat)
    requires k <= |s|
    ensures Bytes(s[..k]) <= n <==> k <= FitCount(s, n)
    decreases |s|
  {
    if k > 0 {
      assert s[..k][1..] == s[1..][..k - 1];
      if |EncodeChar(s[0])| <= n {
        LongestPrefixIsLongest(s[1..], n - |EncodeChar(s[0])|, k - 1);
      }
    }
  }

  /** One encoded character. */
  predicate IsSequence(head: seq<Byte>) {
    1 <= |head| <= 4 && !IsContinuation(head[0]) && forall i :: 0 < i < |head| ==> IsContinuation(head[i])
  }

  /** The boundaries of a text are the start of its first character and those of the rest. */
  lemma BoundariesOfConcat(head: seq<Byte>, tail: seq<Byte>, q: nat)
    requires IsSequence(head) && (tail == [] || !IsContinuation(tail[0])) && q <= |head + tail|
    ensures q < |head| ==> (IsCharBoundary(head + tail, q) <==> q == 0)
    ensures q >= |head| ==> (IsCharBoundary(head + tail, q) <==> IsCharBoundary(tail, q - |head|))
  {
  }

  /** A position is a boundary exactly if the characters that fit before it fill it. */
  lemma {:induction false} BoundaryIsFilled(s: string, pos: nat)
    requires pos <= Bytes(s)
    ensures IsCharBoundary(Encode(s), pos) <==> pos == Bytes(LongestPrefix(s, pos))
    decreases |s|
  {
    if s != "" {
      var (head, tail) := (EncodeChar(s[0]), Encode(s[1..]));
      FirstByteIsBoundary(s[1..]);
      BoundariesOfConcat(head, tail, pos);
      if |head| <= pos {
        BoundaryIsFilled(s[1..], pos - |head|);
        PrefixOfConcat(s, pos);
      }
    }
  }

  lemma EncodedStart(a: string, b: string)
    ensures Encode(a) <= Encode(a + b)
  {
    EncodeConcat(a, b);
  }

  /** A prefix of characters is a prefix of bytes. */
  lemma EncodedPrefix(s: string, k: nat)
    requires k <= |s|
    ensures Encode(s[..k]) <= Encode(s)
  {
    EncodedStart(s[..k], s[k..]);
    Halves(s, k);
  }

  /** The next character adds at most four bytes. */
  lemma NextCharacter(s: string, k: nat)
    requires k < |s|
    ensures Bytes(s[..k + 1]) <= Bytes(s[..k]) + 4
  {
    EncodeConcat(s[..k], [s[k]]);
    assert s[..k] + [s[k]] == s[..k + 1];
    assert Encode([s[k]]) == EncodeChar(s[k]) + Encode("");
  }

  /** Less than one more character fits, and the prefix ends at its own bytes. */
  lemma PrefixEnds(s: string, pos: nat)
    requires pos <= Bytes(s)
    ensures Bytes(LongestPrefix(s, pos)) <= pos < Bytes(LongestPrefix(s, pos)) + 4
    ensures Encode(s)[..Bytes(LongestPrefix(s, pos))] == Encode(LongestPrefix(s, pos))
  {
    var k := FitCount(s, pos);
    LongestPrefixIsLongest(s, pos, k);
    EncodedPrefix(s, k);
    if k < |s| {
      LongestPrefixIsLongest(s, pos, k + 1);
      NextCharacter(s, k);
    } else {
      assert s[..k] == s;
    }
  }

  /** Between the bytes of the longest prefix and the limit, no other prefix fits. */
  lemma SameCountBetween(s: string, pos: nat, q: nat)
    requires Bytes(LongestPrefix(s, pos)) <= q <= pos
    ensures FitCount(s, q) == FitCount(s, pos)
  {
    LongestPrefixIsLongest(s, q, FitCount(s, pos));
    LongestPrefixIsLongest(s, q, FitCount(s, q));
    LongestPrefixIsLongest(s, pos, FitCount(s, q));
  }

  /** Bytes are cut exactly between characters at the boundaries. */
  lemma BoundariesAreBetweenCharacters(s: string, pos: nat)
    requires pos <= Bytes(s)
    ensures Bytes(LongestPrefix(s, pos)) <= pos < Bytes(LongestPrefix(s, pos)) + 4
    ensures IsCharBoundary(Encode(s), Bytes(LongestPrefix(s, pos)))
    ensures IsCharBoundary(Encode(s), pos) <==> pos == Bytes(LongestPrefix(s, pos))
    ensures Encode(s)[..Bytes(LongestPrefix(s, pos))] == Encode(LongestPrefix(s, pos))
    ensures forall q :: Bytes(LongestPrefix(s, pos)) < q < pos ==> !IsCharBoundary(Encode(s), q)
  {
    var p := Bytes(LongestPrefix(s, pos));
    PrefixEnds(s, pos);
    BoundaryIsFilled(s, pos);
    forall q: nat | p <= q <= pos
      ensures IsCharBoundary(Encode(s), q) <==> q == p
    {
      SameCountBetween(s, pos, q);
      BoundaryIsFilled(s, q);
    }
  }

  lemma PrefixOfConcat(s: string, n: nat)
    requires s != "" && |EncodeChar(s[0])| <= n
    ensures Encode(LongestPrefix(s, n)) == EncodeChar(s[0]) + Encode(LongestPrefix(s[1..], n - |EncodeChar(s[0])|))
  {
    var prefix := LongestPrefix(s, n);
    assert prefix[0] == s[0] && prefix[1..] == LongestPrefix(s[1..], n - |EncodeChar(s[0])|);
  }

  lemma FirstByteIsBoundary(s: string)
    ensures Encode(s) != [] ==> !IsContinuation(Encode(s)[0])
  {
  }

  predicate IsAscii(s: string) {
    forall i :: 0 <= i < |s| ==> s[i] as int < 0x80
  }

  /** ASCII strings have as many bytes as characters. */
  lemma {:induction false} AsciiBytes(s: string, n: nat)
    requires IsAscii(s)
    ensures Bytes(s) == |s|
    ensures LongestPrefix(s, n) == if |s| <= n then s else s[..n]
  {
    if s != "" {
      AsciiBytes(s[1..], if n > 0 then n - 1 else 0);
      assert s == [s[0]] + s[1..];
    }
  }

  lemma AsciiFitCount(s: string, n: nat)
    requires IsAscii(s)
    ensures FitCount(s, n) == if |s| <= n then |s| else n
  {
    AsciiBytes(s, n);
    assert |LongestPrefix(s, n)| == FitCount(s, n);
  }

  /** Every character needs at least one byte. */
  lemma {:induction false} DropLast(s: string)
    requires s != ""
    ensures Bytes(s[..|s| - 1]) < Bytes(s)
  {
    assert s == s[..|s| - 1] + [s[|s| - 1]];
    EncodeConcat(s[..|s| - 1], [s[|s| - 1]]);
    assert Encode([s[|s| - 1]]) == EncodeChar(s[|s| - 1]) + Encode("");
  }
}
