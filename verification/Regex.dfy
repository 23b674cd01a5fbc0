/** Regular expressions that are matched against a whole string. */
module Regex {
  import opened Text

  datatype Re =
    | Empty
    | Class(test: char -> bool)
    | Then(first: Re, second: Re)
    | Either(left: Re, right: Re)
    | Star(body: Re)
    | UpTo(body: Re, times: nat)

  function Optional(re: Re): Re {
    Either(re, Empty)
  }

  function Plus(re: Re): Re {
    Then(re, Star(re))
  }

  function Char(c: char): Re {
    Class(d => d == c)
  }

  /** `s` is a word of the language of `re`. */
  ghost predicate Matches(re: Re, s: string)
    decreases re, 0, |s|
  {
    match re
    case Empty => s == ""
    case Class(test) => |s| == 1 && test(s[0])
    case Then(first, second) => exists i :: 0 <= i <= |s| && Matches(first, s[..i]) && Matches(second, s[i..])
    case Either(left, right) => Matches(left, s) || Matches(right, s)
    case Star(body) =>
      s == "" || exists i :: 0 < i <= |s| && Matches(body, s[..i]) && Matches(re, s[i..])
    case UpTo(body, times) => MatchesUpTo(body, times, s)
  }

  ghost predicate MatchesUpTo(body: Re, times: nat, s: string)
    decreases body, 1, times
  {
    s == "" ||
    (times > 0 && exists i :: 0 <= i <= |s| && Matches(body, s[..i]) && MatchesUpTo(body, times - 1, s[i..]))
  }

  predicate All(s: string, test: char -> bool) {
    forall i :: 0 <= i < |s| ==> test(s[i])
  }

  lemma ThenIntro(first: Re, second: Re, a: string, b: string)
    requires Matches(first, a) && Matches(second, b)
    ensures Matches(Then(first, second), a + b)
  {
    assert (a + b)[..|a|] == a && (a + b)[|a|..] == b;
  }

  lemma ThenElim(first: Re, second: Re, s: string) returns (a: string, b: string)
    requires Matches(Then(first, second), s)
    ensures s == a + b && Matches(first, a) && Matches(second, b)
  {
    var i :| 0 <= i <= |s| && Matches(first, s[..i]) && Matches(second, s[i..]);
    a, b := s[..i], s[i..];
  }

  lemma StarElim(body: Re, s: string) returns (a: string, b: string)
    requires s != "" && Matches(Star(body), s)
    ensures s == a + b && a != "" && Matches(body, a) && Matches(Star(body), b)
  {
    var i :| 0 < i <= |s| && Matches(body, s[..i]) && Matches(Star(body), s[i..]);
    a, b := s[..i], s[i..];
  }

  lemma StarIntro(body: Re, a: string, b: string)
    requires a != "" && Matches(body, a) && Matches(Star(body), b)
    ensures Matches(Star(body), a + b)
  {
    assert (a + b)[..|a|] == a && (a + b)[|a|..] == b;
  }

  lemma OptionalIntro(first: Re, second: Re, a: string, b: string)
    requires Matches(first, a) && (b == "" || Matches(second, b))
    ensures Matches(Then(first, Optional(second)), a + b)
  {
    assert Matches(Optional(second), b);
    ThenIntro(first, Optional(second), a, b);
  }

  lemma OptionalElim(first: Re, second: Re, s: string)
    requires Matches(Then(first, Optional(second)), s)
    ensures Matches(first, s) || Matches(Then(first, second), s)
  {
    var i :| 0 <= i <= |s| && Matches(first, s[..i]) && Matches(Optional(second), s[i..]);
    var (a, b) := (s[..i], s[i..]);
    assert s == a + b;
    if Matches(second, b) {
      ThenIntro(first, second, a, b);
    } else {
      assert Matches(Empty, b);
      assert b == "" && a + b == a;
    }
  }

  lemma {:induction false} StarOfClass(test: char -> bool, s: string)
    ensures Matches(Star(Class(test)), s) <==> All(s, test)
    decreases |s|
  {
    if s != "" {
      StarOfClass(test, s[1..]);
      assert s[..1] == [s[0]];
      if All(s, test) {
        assert All(s[1..], test);
        assert Matches(Class(test), s[..1]);
      }
      if Matches(Star(Class(test)), s) {
        var i :| 0 < i <= |s| && Matches(Class(test), s[..i]) && Matches(Star(Class(test)), s[i..]);
        assert i == 1 && s == [s[0]] + s[1..];
      }
    }
  }

  lemma {:induction false} UpToOfClass(test: char -> bool, times: nat, s: string)
    ensures Matches(UpTo(Class(test), times), s) <==> |s| <= times && All(s, test)
  {
    if s != "" && times > 0 {
      UpToOfClass(test, times - 1, s[1..]);
      assert s[..1] == [s[0]];
      if |s| <= times && All(s, test) {
        assert All(s[1..], test);
        assert Matches(Class(test), s[..1]) && MatchesUpTo(Class(test), times - 1, s[1..]);
      }
      if MatchesUpTo(Class(test), times, s) {
        var i :| 0 <= i <= |s| && Matches(Class(test), s[..i]) && MatchesUpTo(Class(test), times - 1, s[i..]);
        assert i == 1 && s == [s[0]] + s[1..];
      }
    }
  }

  lemma PlusOfClass(test: char -> bool, s: string)
    ensures Matches(Plus(Class(test)), s) <==> s != "" && All(s, test)
  {
    if s != "" {
      StarOfClass(test, s[1..]);
      assert s[..1] == [s[0]] && s == [s[0]] + s[1..];
      if All(s, test) {
        ThenIntro(Class(test), Star(Class(test)), s[..1], s[1..]);
      }
    }
    if Matches(Plus(Class(test)), s) {
      var i :| 0 <= i <= |s| && Matches(Class(test), s[..i]) && Matches(Star(Class(test)), s[i..]);
      assert i == 1;
    }
  }

  /** The first character, the characters in between and the last one. */
  predicate Framed(s: string, head: char -> bool, inner: char -> bool, last: char -> bool) {
    |s| >= 2 && head(s[0]) && last(s[|s| - 1]) && All(s[1..|s| - 1], inner)
  }

  lemma FramedIntro(head: char -> bool, middle: Re, last: char -> bool, s: string)
    requires |s| >= 2 && head(s[0]) && last(s[|s| - 1]) && Matches(middle, s[1..|s| - 1])
    ensures Matches(Then(Class(head), Then(middle, Class(last))), s)
  {
    var (a, b, c) := (s[..1], s[1..|s| - 1], s[|s| - 1..]);
    ThenIntro(middle, Class(last), b, c);
    ThenIntro(Class(head), Then(middle, Class(last)), a, b + c);
    assert s == a + (b + c);
  }

  lemma FramedElim(head: char -> bool, middle: Re, last: char -> bool, s: string)
    requires Matches(Then(Class(head), Then(middle, Class(last))), s)
    ensures |s| >= 2 && head(s[0]) && last(s[|s| - 1]) && Matches(middle, s[1..|s| - 1])
  {
    var i :| 0 <= i <= |s| && Matches(Class(head), s[..i]) && Matches(Then(middle, Class(last)), s[i..]);
    var t := s[i..];
    var j :| 0 <= j <= |t| && Matches(middle, t[..j]) && Matches(Class(last), t[j..]);
    assert i == 1 && |t[j..]| == 1 && t[j..][0] == s[|s| - 1];
    assert t[..j] == s[1..|s| - 1];
  }

  /** `head inner* last` in terms of characters. */
  lemma FramedStar(head: char -> bool, inner: char -> bool, last: char -> bool, s: string)
    ensures Matches(Then(Class(head), Then(Star(Class(inner)), Class(last))), s) <==> Framed(s, head, inner, last)
  {
    if |s| >= 2 {
      StarOfClass(inner, s[1..|s| - 1]);
    }
    if Framed(s, head, inner, last) {
      FramedIntro(head, Star(Class(inner)), last, s);
    }
    if Matches(Then(Class(head), Then(Star(Class(inner)), Class(last))), s) {
      FramedElim(head, Star(Class(inner)), last, s);
    }
  }

  /** `head inner{0,times} last` in terms of characters. */
  lemma FramedUpTo(head: char -> bool, inner: char -> bool, last: char -> bool, times: nat, s: string)
    ensures Matches(Then(Class(head), Then(UpTo(Class(inner), times), Class(last))), s)
       <==> |s| <= times + 2 && Framed(s, head, inner, last)
  {
    if |s| >= 2 {
      UpToOfClass(inner, times, s[1..|s| - 1]);
    }
    if |s| <= times + 2 && Framed(s, head, inner, last) {
      FramedIntro(head, UpTo(Class(inner), times), last, s);
    }
    if Matches(Then(Class(head), Then(UpTo(Class(inner), times), Class(last))), s) {
      FramedElim(head, UpTo(Class(inner), times), last, s);
    }
  }

  /** The longest prefix of accepted characters. */
  function Run(s: string, test: char -> bool): (n: nat)
    ensures n <= |s| && All(s[..n], test)
  {
    if s == "" || !test(s[0]) then 0
    else
      assert forall i :: 0 < i <= |s| ==> s[..i] == [s[0]] + s[1..][..i - 1];
      1 + Run(s[1..], test)
  }

  lemma {:induction false} RunIsLongest(s: string, test: char -> bool, n: nat)
    requires n <= |s| && All(s[..n], test)
    ensures n <= Run(s, test)
    decreases n
  {
    if n > 0 {
      assert s[..n] == [s[0]] + s[1..][..n - 1];
      RunIsLongest(s[1..], test, n - 1);
    }
  }

  lemma {:induction false} RunStops(s: string, test: char -> bool)
    ensures Run(s, test) < |s| ==> !test(s[Run(s, test)])
  {
    if s != "" && test(s[0]) {
      RunStops(s[1..], test);
    }
  }

  /** A run ends at the first character that is not accepted. */
  lemma {:induction false} RunOfConcat(a: string, b: string, test: char -> bool)
    requires All(a, test) && (b == "" || !test(b[0]))
    ensures Run(a + b, test) == |a| && (a + b)[..|a|] == a && (a + b)[|a|..] == b
  {
    if a == "" {
      assert a + b == b;
    } else {
      assert (a + b)[1..] == a[1..] + b;
      RunOfConcat(a[1..], b, test);
    }
  }
}
