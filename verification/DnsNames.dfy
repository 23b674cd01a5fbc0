/** The DNS and label formats of Kubernetes names. */
module DnsNames {
  import opened Text
  import opened Regex
  import opened Utf8

  const RFC_1035_LABEL_MAX_LENGTH := 63
  const RFC_1123_LABEL_MAX_LENGTH := 63
  const RFC_1123_SUBDOMAIN_MAX_LENGTH := 253
  const LABEL_VALUE_MAX_LENGTH := 63

  predicate IsAlnum(c: char) {
    IsLowerAlnum(c) || 'A' <= c <= 'Z'
  }

  predicate IsLabelValueChar(c: char) {
    IsAlnum(c) || c == '-' || c == '_' || c == '.'
  }

  /** `[-a-z0-9]*[a-z0-9]` */
  const LABEL_TAIL := Then(Star(Class(IsLowerAlnumOrDash)), Class(IsLowerAlnum))

  /** `[a-z]([-a-z0-9]*[a-z0-9])?` */
  const RFC_1035_LABEL :=
    Then(Class(IsLower), Optional(LABEL_TAIL))

  /** `[a-z0-9]([-a-z0-9]*[a-z0-9])?` */
  const RFC_1123_LABEL :=
    Then(Class(IsLowerAlnum), Optional(LABEL_TAIL))

  const DOTTED_LABEL := Then(Char('.'), RFC_1123_LABEL)

  /** Labels that are separated by dots. */
  const RFC_1123_SUBDOMAIN := Then(RFC_1123_LABEL, Star(DOTTED_LABEL))

  const LABEL_VALUE_TAIL := Then(Star(Class(IsLabelValueChar)), Plus(Class(IsAlnum)))

  /** `[a-z0-9A-Z]([a-z0-9A-Z-_.]*[a-z0-9A-Z]+)?` */
  const LABEL_VALUE :=
    Then(Class(IsAlnum), Optional(LABEL_VALUE_TAIL))

  ghost predicate IsRfc1035Label(s: string) {
    Bytes(s) <= RFC_1035_LABEL_MAX_LENGTH && Matches(RFC_1035_LABEL, s)
  }

  ghost predicate IsRfc1123Label(s: string) {
    Bytes(s) <= RFC_1123_LABEL_MAX_LENGTH && Matches(RFC_1123_LABEL, s)
  }

  ghost predicate IsRfc1123Subdomain(s: string) {
    Bytes(s) <= RFC_1123_SUBDOMAIN_MAX_LENGTH && Matches(RFC_1123_SUBDOMAIN, s)
  }

  ghost predicate IsLabelValue(s: string) {
    Bytes(s) <= LABEL_VALUE_MAX_LENGTH && IsAscii(s) && Matches(LABEL_VALUE, s)
  }

  /** Lower-case alphanumeric with dashes inside. */
  predicate IsDashed(s: string) {
    s != "" && All(s, IsLowerAlnumOrDash) && IsLowerAlnum(s[0]) && IsLowerAlnum(s[|s| - 1])
  }

  lemma LongLabelRegex(head: char -> bool, s: string)
    ensures Matches(Then(Class(head), LABEL_TAIL), s) <==> Framed(s, head, IsLowerAlnumOrDash, IsLowerAlnum)
  {
    FramedStar(head, IsLowerAlnumOrDash, IsLowerAlnum, s);
  }

  lemma FramedIsDashed(head: char -> bool, s: string)
    requires forall c :: head(c) ==> IsLowerAlnum(c)
    ensures Framed(s, head, IsLowerAlnumOrDash, IsLowerAlnum) <==> |s| >= 2 && IsDashed(s) && head(s[0])
  {
  }

  lemma LabelRegex(head: char -> bool, s: string)
    requires forall c :: head(c) ==> IsLowerAlnum(c)
    ensures Matches(Then(Class(head), Optional(LABEL_TAIL)), s) <==> IsDashed(s) && head(s[0])
  {
    LongLabelRegex(head, s);
    FramedIsDashed(head, s);
    if Matches(Then(Class(head), Optional(LABEL_TAIL)), s) {
      OptionalElim(Class(head), LABEL_TAIL, s);
    }
    if IsDashed(s) && head(s[0]) {
      if |s| == 1 {
        OptionalIntro(Class(head), LABEL_TAIL, s, "");
        assert s + "" == s;
      } else {
        ThenToOptional(Class(head), LABEL_TAIL, s);
      }
    }
  }

  lemma ThenToOptional(first: Re, second: Re, s: string)
    requires Matches(Then(first, second), s)
    ensures Matches(Then(first, Optional(second)), s)
  {
  }

  /** The regular expressions of labels in terms of their characters. */
  lemma LabelFormats(s: string)
    ensures Matches(RFC_1035_LABEL, s) <==> IsDashed(s) && IsLower(s[0])
    ensures Matches(RFC_1123_LABEL, s) <==> IsDashed(s)
  {
    LabelRegex(IsLower, s);
    LabelRegex(IsLowerAlnum, s);
  }

  lemma DashedIsAscii(s: string)
    requires All(s, IsLowerAlnumOrDash)
    ensures IsAscii(s) && Bytes(s) == |s|
  {
    AsciiBytes(s, 0);
  }

  /** A 1035 label is a 1123 label, a 1123 label is a subdomain and a label value. */
  lemma LabelsAreSubdomainsAndLabelValues(s: string)
    ensures IsRfc1035Label(s) ==> IsRfc1123Label(s)
    ensures IsRfc1123Label(s) ==> IsRfc1123Subdomain(s) && IsLabelValue(s)
  {
    LabelFormats(s);
    if IsRfc1123Label(s) {
      DashedIsAscii(s);
      ThenIntro(RFC_1123_LABEL, Star(DOTTED_LABEL), s, "");
      assert s + "" == s;
      LabelValueFormat(s);
    }
  }

  /** The regular expression of label values in terms of their characters. */
  lemma LabelValueFormat(s: string)
    ensures Matches(LABEL_VALUE, s) <==>
            s != "" && IsAlnum(s[0]) && IsAlnum(s[|s| - 1]) && All(s, IsLabelValueChar)
  {
    if Matches(LABEL_VALUE, s) {
      LabelValueCharacters(s);
    }
    if s != "" && IsAlnum(s[0]) && IsAlnum(s[|s| - 1]) && All(s, IsLabelValueChar) {
      CharactersOfLabelValue(s);
    }
  }

  lemma LabelValueTailCharacters(b: string)
    requires Matches(LABEL_VALUE_TAIL, b)
    ensures b != "" && IsAlnum(b[|b| - 1]) && All(b, IsLabelValueChar)
  {
    var m, c := ThenElim(Star(Class(IsLabelValueChar)), Plus(Class(IsAlnum)), b);
    StarOfClass(IsLabelValueChar, m);
    PlusOfClass(IsAlnum, c);
    assert b[|b| - 1] == c[|c| - 1];
  }

  lemma LabelValueCharacters(s: string)
    requires Matches(LABEL_VALUE, s)
    ensures s != "" && IsAlnum(s[0]) && IsAlnum(s[|s| - 1]) && All(s, IsLabelValueChar)
  {
    var a, b := ThenElim(Class(IsAlnum), Optional(LABEL_VALUE_TAIL), s);
    if b != "" {
      assert Matches(LABEL_VALUE_TAIL, b);
      LabelValueTailCharacters(b);
    }
  }

  lemma LabelValueTail(init: string, last: string)
    requires All(init, IsLabelValueChar) && |last| == 1 && IsAlnum(last[0])
    ensures Matches(LABEL_VALUE_TAIL, init + last)
  {
    StarOfClass(IsLabelValueChar, init);
    PlusOfClass(IsAlnum, last);
    ThenIntro(Star(Class(IsLabelValueChar)), Plus(Class(IsAlnum)), init, last);
  }

  lemma CharactersOfLabelValue(s: string)
    requires s != "" && IsAlnum(s[0]) && IsAlnum(s[|s| - 1]) && All(s, IsLabelValueChar)
    ensures Matches(LABEL_VALUE, s)
  {
    Halves(s, 1);
    if |s| > 1 {
      var n := |s| - 2;
      LabelValueTail(s[1..][..n], s[1..][n..]);
      Halves(s[1..], n);
    }
    OptionalIntro(Class(IsAlnum), LABEL_VALUE_TAIL, s[..1], s[1..]);
  }

  // ----- Labels of a subdomain -----

  predicate NotDot(c: char) {
    c != '.'
  }

  /** The texts between the dots. */
  function Labels(s: string): (r: seq<string>)
    ensures r != []
    decreases |s|
  {
    var n := Run(s, NotDot);
    if n == |s| then [s] else [s[..n]] + Labels(s[n + 1..])
  }

  ghost predicate AllDashed(labels: seq<string>) {
    forall l :: l in labels ==> IsDashed(l)
  }

  lemma LabelsOfPlain(a: string)
    requires All(a, NotDot)
    ensures Labels(a) == [a]
  {
    RunOfConcat(a, "", NotDot);
    assert a + "" == a;
  }

  lemma LabelsAfterDot(a: string, b: string)
    requires All(a, NotDot)
    ensures Labels(a + "." + b) == [a] + Labels(b)
  {
    RunOfConcat(a, "." + b, NotDot);
    Associative(a, ".", b);
    assert (a + "." + b)[|a| + 1..] == b;
  }

  lemma SplitAtDot(s: string) returns (a: string, b: string)
    requires Run(s, NotDot) < |s|
    ensures s == a + "." + b && All(a, NotDot) && Labels(s) == [a] + Labels(b)
  {
    var n := Run(s, NotDot);
    RunStops(s, NotDot);
    a, b := s[..n], s[n + 1..];
    assert s[n..n + 1] == ".";
    assert s == a + s[n..n + 1] + b;
  }

  /** Every character is a dot or in a label. */
  lemma {:induction false} LabelsCover(s: string, c: char)
    requires c in s && c != '.'
    ensures exists l :: l in Labels(s) && c in l
    decreases |s|
  {
    if Run(s, NotDot) == |s| {
      assert s in Labels(s);
    } else {
      var a, b := SplitAtDot(s);
      assert a in Labels(s);
      if c !in a {
        LabelsCover(b, c);
      }
    }
  }

  lemma FirstDottedLabel(s: string) returns (l: string, rest: string)
    requires s != "" && Matches(Star(DOTTED_LABEL), s)
    ensures s == "." + (l + rest) && Matches(RFC_1123_LABEL, l) && Matches(Star(DOTTED_LABEL), rest)
  {
    var dotted;
    dotted, rest := StarElim(DOTTED_LABEL, s);
    var dot;
    dot, l := ThenElim(Char('.'), RFC_1123_LABEL, dotted);
    assert dot == ".";
    Associative(dot, l, rest);
  }

  /** A label in front of dotted labels adds one label. */
  lemma {:induction false} LabelsOfWord(a: string, b: string)
    requires Matches(RFC_1123_LABEL, a) && Matches(Star(DOTTED_LABEL), b)
    ensures AllDashed(Labels(a + b))
    decreases |b|
  {
    LabelFormats(a);
    if b == "" {
      LabelsOfPlain(a);
      assert a + b == a;
    } else {
      var l, rest := FirstDottedLabel(b);
      LabelsOfWord(l, rest);
      LabelsAfterDot(a, l + rest);
      Associative(a, ".", l + rest);
    }
  }

  lemma LabelBeforeSubdomain(a: string, b: string)
    requires Matches(RFC_1123_LABEL, a) && Matches(RFC_1123_SUBDOMAIN, b)
    ensures Matches(RFC_1123_SUBDOMAIN, a + "." + b)
  {
    var l, rest := ThenElim(RFC_1123_LABEL, Star(DOTTED_LABEL), b);
    ThenIntro(Char('.'), RFC_1123_LABEL, ".", l);
    StarIntro(DOTTED_LABEL, "." + l, rest);
    ThenIntro(RFC_1123_LABEL, Star(DOTTED_LABEL), a, "." + l + rest);
    Associative(".", l, rest);
    Associative(a, ".", b);
  }

  lemma {:induction false} WordOfLabels(s: string)
    requires AllDashed(Labels(s))
    ensures Matches(RFC_1123_SUBDOMAIN, s)
    decreases |s|
  {
    if Run(s, NotDot) == |s| {
      assert s in Labels(s);
      LabelFormats(s);
      ThenIntro(RFC_1123_LABEL, Star(DOTTED_LABEL), s, "");
      assert s + "" == s;
    } else {
      var a, b := SplitAtDot(s);
      assert a in Labels(s) && forall l :: l in Labels(b) ==> l in Labels(s);
      LabelFormats(a);
      WordOfLabels(b);
      LabelBeforeSubdomain(a, b);
    }
  }

  /** The regular expression of subdomains in terms of their labels. */
  lemma SubdomainLabels(s: string)
    ensures Matches(RFC_1123_SUBDOMAIN, s) <==> AllDashed(Labels(s))
  {
    if Matches(RFC_1123_SUBDOMAIN, s) {
      var a, b := ThenElim(RFC_1123_LABEL, Star(DOTTED_LABEL), s);
      LabelsOfWord(a, b);
    }
    if AllDashed(Labels(s)) {
      WordOfLabels(s);
    }
  }
}
