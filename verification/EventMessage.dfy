/** Messages of Kubernetes events, which are limited in bytes. */
module EventMessage {
  import opened Utf8

  const ELLIPSIS := '\U{2026}'
  const ELLIPSIS_LEN := 3

  /** The message a limit leaves: the whole, or a prefix of whole characters and an ellipsis if it fits. */
  function Truncated(text: string, maxLen: nat): string {
    if Bytes(text) <= maxLen then text
    else if maxLen < ELLIPSIS_LEN then ""
    else LongestPrefix(text, maxLen - ELLIPSIS_LEN) + [ELLIPSIS]
  }

  /** Searches backwards for a character boundary; three steps are enough. */
  method FindStartOfChar(bytes: seq<Byte>, pos: nat, ghost text: string) returns (start: nat)
    requires bytes == Encode(text) && pos <= |bytes|
    ensures start == Bytes(LongestPrefix(text, pos))
    ensures IsCharBoundary(bytes, start) && start <= pos <= start + 3
  {
    BoundariesAreBetweenCharacters(text, pos);
    ghost var target := Bytes(LongestPrefix(text, pos));
    start := pos;
    while !IsCharBoundary(bytes, start)
      invariant target <= start <= pos
      decreases start
    {
      start := start - 1;
    }
    assert start == target by {
      if target < start < pos {
        assert false;
      }
    }
  }

  /** A mutable string; its bytes are always those of `text`. */
  class Message {
    var bytes: seq<Byte>
    ghost var text: string

    ghost predicate Valid()
      reads this
    {
      bytes == Encode(text)
    }

    constructor (s: string)
      ensures Valid() && text == s
    {
      bytes, text := Encode(s), s;
    }

    /** Cuts the message so that it has at most `maxLen` bytes and is still valid UTF-8. */
    method TruncateWithEllipsis(maxLen: nat)
      requires Valid()
      modifies this
      ensures Valid() && |bytes| <= maxLen
      ensures text == Truncated(old(text), maxLen)
      ensures Bytes(old(text)) <= maxLen ==> text == old(text)
      ensures Bytes(old(text)) > maxLen ==>
                text == "" || (text != "" && text[|text| - 1] == '\U{2026}' && text[..|text| - 1] <= old(text))
    {
      if |bytes| > maxLen {
        var limit := if maxLen < ELLIPSIS_LEN then 0 else maxLen - ELLIPSIS_LEN;
        var start := FindStartOfChar(bytes, limit, text);
        BoundariesAreBetweenCharacters(text, limit);
        bytes, text := bytes[..start], LongestPrefix(text, limit);
        if ELLIPSIS_LEN <= maxLen {
          EncodeConcat(text, [ELLIPSIS]);
          assert Encode([ELLIPSIS]) == EncodeChar(ELLIPSIS) + Encode("");
          bytes, text := bytes + EncodeChar(ELLIPSIS), text + [ELLIPSIS];
        } else {
          assert Bytes(text) == 0 ==> text == "";
        }
      }
    }
  }

  /**
   * A message within the limit is kept; a longer one becomes a prefix of whole characters and the
   * character U+2026, or the empty message if that character does not fit.
   */
  lemma TruncatedEndsWithEllipsis(text: string, maxLen: nat)
    ensures Bytes(text) <= maxLen ==> Truncated(text, maxLen) == text
    ensures Bytes(text) > maxLen >= 3 ==>
              && |Truncated(text, maxLen)| > 0 && |Truncated(text, maxLen)| - 1 <= |text|
              && Truncated(text, maxLen) == text[..|Truncated(text, maxLen)| - 1] + "\U{2026}"
    ensures Bytes(text) > maxLen && maxLen < 3 ==> Truncated(text, maxLen) == ""
    ensures Bytes("\U{2026}") == 3
  {
    assert Encode([ELLIPSIS]) == EncodeChar(ELLIPSIS) + Encode("");
  }

  /** A message that is cut keeps as many whole characters as fit beside the ellipsis. */
  lemma TruncatedKeepsAsMuchAsFits(text: string, maxLen: nat, k: nat)
    requires Bytes(text) > maxLen >= ELLIPSIS_LEN && k <= |text|
    requires Bytes(text[..k] + [ELLIPSIS]) <= maxLen
    ensures text[..k] <= Truncated(text, maxLen) && Bytes(Truncated(text, maxLen)) <= maxLen
  {
    var prefix := LongestPrefix(text, maxLen - ELLIPSIS_LEN);
    assert Encode([ELLIPSIS]) == EncodeChar(ELLIPSIS) + Encode("");
    EncodeConcat(text[..k], [ELLIPSIS]);
    EncodeConcat(prefix, [ELLIPSIS]);
    LongestPrefixIsLongest(text, maxLen - ELLIPSIS_LEN, k);
    LongestPrefixIsLongest(text, maxLen - ELLIPSIS_LEN, |prefix|);
  }
}
