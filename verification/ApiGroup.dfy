/** API groups such as `apps` and `listeners.stackable.tech`. */
module ApiGroup {
  import opened Wrappers
  import opened Text
  import opened Regex
  import opened Utf8
  import opened DnsNames

  const MAX_GROUP_LENGTH := 253

  /** `[a-z0-9][a-z0-9-]{0,61}[a-z0-9]` */
  const API_GROUP_NAME :=
    Then(Class(IsLowerAlnum), Then(UpTo(Class(IsLowerAlnumOrDash), 61), Class(IsLowerAlnum)))

  const API_GROUP_PART := Then(API_GROUP_NAME, Optional(Char('.')))

  /** One or more parts; the dots between them are optional. */
  const API_GROUP := Plus(API_GROUP_PART)

  datatype GroupError = EmptyGroup | TooLong | InvalidGroupFormat

  ghost function ParseGroup(s: string): Result<string, GroupError> {
    if s == "" then Err(EmptyGroup)
    else if Bytes(s) > MAX_GROUP_LENGTH then Err(TooLong)
    else if !Matches(API_GROUP, s) then Err(InvalidGroupFormat)
    else Ok(s)
  }

  // ----- The format in terms of labels -----

  predicate IsPiece(s: string) {
    2 <= |s| <= 63 && IsDashed(s)
  }

  /** A label can be cut into pieces of 2 to 63 characters that neither start nor end with a dash. */
  predicate Cuttable(l: string)
    decreases |l|
  {
    IsPiece(l) || exists n :: 2 <= n < |l| && IsPiece(l[..n]) && Cuttable(l[n..])
  }

  ghost predicate AllCuttable(labels: seq<string>) {
    forall l :: l in labels ==> Cuttable(l)
  }

  lemma FirstPiece(l: string) returns (a: string, b: string)
    requires Cuttable(l) && !IsPiece(l)
    ensures l == a + b && IsPiece(a) && Cuttable(b)
  {
    var n :| 2 <= n < |l| && IsPiece(l[..n]) && Cuttable(l[n..]);
    a, b := l[..n], l[n..];
  }

  /** A cuttable label is dashed; up to 63 characters, it only has to be longer than one. */
  lemma {:induction false} CuttableLabels(l: string)
    ensures Cuttable(l) ==> IsDashed(l) && |l| >= 2
    ensures |l| <= 63 ==> (Cuttable(l) <==> IsDashed(l) && |l| >= 2)
    decreases |l|
  {
    if Cuttable(l) && !IsPiece(l) {
      var a, b := FirstPiece(l);
      CuttableLabels(b);
      DashedConcat(a, b);
    }
  }

  lemma DashedConcat(a: string, b: string)
    requires IsDashed(a) && IsDashed(b)
    ensures IsDashed(a + b)
  {
  }

  lemma CuttableConcat(a: string, b: string)
    requires IsPiece(a) && Cuttable(b)
    ensures Cuttable(a + b)
  {
    CuttableLabels(b);
    assert (a + b)[..|a|] == a && (a + b)[|a|..] == b;
  }

  lemma NameIsPiece(s: string)
    ensures Matches(API_GROUP_NAME, s) <==> IsPiece(s)
  {
    FramedUpTo(IsLowerAlnum, IsLowerAlnumOrDash, IsLowerAlnum, 61, s);
    FramedIsDashed(IsLowerAlnum, s);
  }

  /** The text without one dot at its end. */
  function WithoutFinalDot(s: string): string {
    if s != "" && s[|s| - 1] == '.' then s[..|s| - 1] else s
  }

  lemma FinalDotOfConcat(a: string, b: string)
    requires b != ""
    ensures WithoutFinalDot(a + b) == a + WithoutFinalDot(b)
  {
  }

  lemma PartIsPiece(part: string) returns (name: string, dot: string)
    requires Matches(API_GROUP_PART, part)
    ensures part == name + dot && IsPiece(name) && (dot == "" || dot == ".")
  {
    name, dot := ThenElim(API_GROUP_NAME, Optional(Char('.')), part);
    NameIsPiece(name);
    assert Matches(Char('.'), dot) || Matches(Empty, dot);
  }

  lemma FirstPart(s: string) returns (name: string, dot: string, rest: string)
    requires s != "" && Matches(Star(API_GROUP_PART), s)
    ensures s == name + dot + rest && IsPiece(name) && (dot == "" || dot == ".") && Matches(Star(API_GROUP_PART), rest)
  {
    var part;
    part, rest := StarElim(API_GROUP_PART, s);
    name, dot := PartIsPiece(part);
  }

  /** Text without dots in front lengthens the first label. */
  lemma LabelsOfPrefix(a: string, b: string)
    requires All(a, NotDot)
    ensures Labels(a + b) == [a + Labels(b)[0]] + Labels(b)[1..]
  {
    if Run(b, NotDot) == |b| {
      LabelsOfPlain(a + b);
    } else {
      var c, d := SplitAtDot(b);
      Associative(a, c, ".");
      Associative(a, c + ".", d);
      LabelsAfterDot(a + c, d);
    }
  }

  lemma PieceBeforeLabels(name: string, dot: string, t: string)
    requires IsPiece(name) && (dot == "" || dot == ".") && AllCuttable(Labels(t))
    ensures AllCuttable(Labels(name + dot + t))
  {
    if dot == "." {
      LabelsAfterDot(name, t);
    } else {
      assert name + dot + t == name + t;
      LabelsOfPrefix(name, t);
      CuttableConcat(name, Labels(t)[0]);
    }
  }

  lemma {:induction false} LabelsOfGroup(s: string)
    requires s != "" && Matches(Star(API_GROUP_PART), s)
    ensures AllCuttable(Labels(WithoutFinalDot(s)))
    decreases |s|
  {
    var name, dot, rest := FirstPart(s);
    if rest == "" {
      assert s == name + dot && WithoutFinalDot(s) == name;
      LabelsOfPlain(name);
    } else {
      LabelsOfGroup(rest);
      FinalDotOfConcat(name + dot, rest);
      PieceBeforeLabels(name, dot, WithoutFinalDot(rest));
    }
  }

  lemma PieceBeforeParts(name: string, dot: string, rest: string)
    requires IsPiece(name) && (dot == "" || dot == ".") && Matches(Star(API_GROUP_PART), rest)
    ensures Matches(API_GROUP, name + dot + rest) && Matches(Star(API_GROUP_PART), name + dot + rest)
  {
    NameIsPiece(name);
    OptionalIntro(API_GROUP_NAME, Char('.'), name, dot);
    ThenIntro(API_GROUP_PART, Star(API_GROUP_PART), name + dot, rest);
    StarIntro(API_GROUP_PART, name + dot, rest);
  }

  lemma {:induction false} CuttableBeforeParts(l: string, dot: string, rest: string)
    requires Cuttable(l) && (dot == "" || dot == ".") && Matches(Star(API_GROUP_PART), rest)
    ensures Matches(API_GROUP, l + dot + rest) && Matches(Star(API_GROUP_PART), l + dot + rest)
    decreases |l|
  {
    if IsPiece(l) {
      PieceBeforeParts(l, dot, rest);
    } else {
      var a, b := FirstPiece(l);
      CuttableBeforeParts(b, dot, rest);
      PieceBeforeParts(a, "", b + dot + rest);
      assert a + "" == a;
      Associative(a, b, dot);
      Associative(a, b + dot, rest);
    }
  }

  lemma {:induction false} GroupOfLabels(t: string, dot: string)
    requires AllCuttable(Labels(t)) && (dot == "" || dot == ".")
    ensures Matches(API_GROUP, t + dot) && Matches(Star(API_GROUP_PART), t + dot)
    decreases |t|
  {
    if Run(t, NotDot) == |t| {
      assert t in Labels(t);
      CuttableBeforeParts(t, dot, "");
      assert t + dot + "" == t + dot;
    } else {
      var a, b := SplitAtDot(t);
      assert a in Labels(t) && forall l :: l in Labels(b) ==> l in Labels(t);
      GroupOfLabels(b, dot);
      CuttableBeforeParts(a, ".", b + dot);
      Associative(a + ".", b, dot);
    }
  }

  lemma GroupIsNotEmpty(s: string)
    requires Matches(API_GROUP, s)
    ensures s != "" && Matches(Star(API_GROUP_PART), s)
  {
    var part, rest := ThenElim(API_GROUP_PART, Star(API_GROUP_PART), s);
    var name, dot := PartIsPiece(part);
    PieceBeforeParts(name, dot, rest);
  }

  /** The group format in terms of labels: all can be cut, and one dot may follow the last. */
  lemma GroupFormat(s: string)
    ensures Matches(API_GROUP, s) <==> AllCuttable(Labels(WithoutFinalDot(s)))
  {
    var t := WithoutFinalDot(s);
    if Matches(API_GROUP, s) {
      GroupIsNotEmpty(s);
      LabelsOfGroup(s);
    }
    if AllCuttable(Labels(t)) {
      var dot := if s == t then "" else ".";
      GroupOfLabels(t, dot);
      assert s == t + dot;
    }
  }

  lemma {:induction false} FinalDotIsEmptyLabel(s: string)
    requires s != "" && s[|s| - 1] == '.'
    ensures "" in Labels(s)
    decreases |s|
  {
    assert s == s[..|s|];
    var a, b := SplitAtDot(s);
    if b != "" {
      FinalDotIsEmptyLabel(b);
    }
  }

  // ----- Groups and DNS subdomains -----

  /** An accepted group is a DNS subdomain exactly if it does not end with a dot. */
  lemma AcceptedGroupIsSubdomain(s: string)
    requires ParseGroup(s).Ok?
    ensures IsRfc1123Subdomain(s) <==> s[|s| - 1] != '.'
  {
    GroupFormat(s);
    SubdomainLabels(s);
    if s[|s| - 1] == '.' {
      FinalDotIsEmptyLabel(s);
    } else {
      forall l | l in Labels(s)
        ensures IsDashed(l)
      {
        CuttableLabels(l);
      }
    }
  }

  /**
   * A DNS subdomain is accepted exactly if all its labels can be cut; if they have at most 63
   * characters, exactly if none of them is a single character.
   */
  lemma SubdomainIsAccepted(s: string)
    requires IsRfc1123Subdomain(s)
    ensures ParseGroup(s).Ok? <==> forall l :: l in Labels(s) ==> Cuttable(l)
    ensures (forall l :: l in Labels(s) ==> |l| <= 63) ==>
              (ParseGroup(s).Ok? <==> forall l :: l in Labels(s) ==> |l| >= 2)
  {
    GroupFormat(s);
    SubdomainLabels(s);
    forall l | l in Labels(s)
      ensures |l| <= 63 ==> (Cuttable(l) <==> |l| >= 2)
    {
      CuttableLabels(l);
    }
    if s != "" && s[|s| - 1] == '.' {
      FinalDotIsEmptyLabel(s);
    }
  }

  /** No accepted group without a dot at its end is spoilt by one, but it is no subdomain any more. */
  lemma FinalDotIsAccepted(s: string)
    requires ParseGroup(s).Ok? && s[|s| - 1] != '.' && Bytes(s) < MAX_GROUP_LENGTH
    ensures ParseGroup(s + ".").Ok? && !IsRfc1123Subdomain(s + ".")
  {
    GroupFormat(s);
    GroupFormat(s + ".");
    assert WithoutFinalDot(s + ".") == s;
    EncodeConcat(s, ".");
    AsciiBytes(".", 0);
    AcceptedGroupIsSubdomain(s + ".");
  }

  /** Single characters are subdomains and no groups. */
  lemma SingleCharacterIsRejected(c: char)
    requires IsLowerAlnum(c)
    ensures IsRfc1123Subdomain([c]) && !ParseGroup([c]).Ok?
  {
    LabelsOfPlain([c]);
    SubdomainLabels([c]);
    AsciiBytes([c], 0);
    SubdomainIsAccepted([c]);
    assert [c] in Labels([c]);
  }

  lemma ShortPieceIsAccepted(s: string)
    requires IsPiece(s)
    ensures ParseGroup(s).Ok?
  {
    DashedIsAscii(s);
    LabelsOfPlain(s);
    GroupFormat(s);
  }

  /** Neither inclusion holds. */
  lemma GroupsAreNotSubdomains()
    ensures ParseGroup("ab.").Ok? && !IsRfc1123Subdomain("ab.")
    ensures !ParseGroup("x").Ok? && IsRfc1123Subdomain("x")
  {
    ShortPieceIsAccepted("ab");
    DashedIsAscii("ab");
    FinalDotIsAccepted("ab");
    assert "ab" + "." == "ab.";
    SingleCharacterIsRejected('x');
  }

  /** Groups never contain the separator of API versions. */
  lemma GroupHasNoSlash(group: string)
    requires Matches(API_GROUP, group)
    ensures '/' !in group
  {
    GroupFormat(group);
    var t := WithoutFinalDot(group);
    if '/' in group {
      assert '/' in t;
      LabelsCover(t, '/');
      var l :| l in Labels(t) && '/' in l;
      CuttableLabels(l);
      assert false;
    }
  }
}
