/** Kubernetes versions such as `v1beta2` and API versions such as `group/v1`. */
module K8sVersion {
  import opened Wrappers
  import opened Text
  import opened Regex
  import opened Decimal
  import opened ApiGroup

  datatype Level = Alpha(n: nat) | Beta(n: nat)

  datatype Version = Version(major: nat, level: Option<Level>)

  datatype LevelError = InvalidLevelFormat | ParseLevelVersion | UnknownIdentifier

  datatype VersionError = InvalidFormat | ParseMajorVersion | ParseLevel(source: LevelError)

  /** Numbers are unsigned 64-bit integers. */
  predicate IsU64(v: Version) {
    v.major < U64_LIMIT && (v.level.Some? ==> v.level.value.n < U64_LIMIT)
  }

  /** The class `\d` also accepts digits of other scripts, but no other ASCII character. */
  ghost predicate IsDigitClass(d: char -> bool) {
    forall c: char :: c as int < 0x80 ==> (d(c) <==> IsDigit(c))
  }

  /** `[a-z0-9][a-z0-9-]{0,60}[a-z0-9]` */
  const LEVEL_PART := Then(Class(IsLowerAlnum), Then(UpTo(Class(IsLowerAlnumOrDash), 60), Class(IsLowerAlnum)))

  /** `v(\d+)(LEVEL_PART)?` */
  function VersionRegex(d: char -> bool): Re {
    Then(Char('v'), Then(Plus(Class(d)), Optional(LEVEL_PART)))
  }

  /** `([a-z]+)(\d+)` */
  function LevelRegex(d: char -> bool): Re {
    Then(Plus(Class(IsLower)), Plus(Class(d)))
  }

  predicate IsLevelPart(s: string) {
    2 <= |s| <= 62 && Framed(s, IsLowerAlnum, IsLowerAlnumOrDash, IsLowerAlnum)
  }

  /**
   * The greedy `\d+` first takes all digits and gives one back after the other until the rest is a
   * level or empty. The result is the number of digits of the major version.
   */
  function Backtrack(s: string, n: nat): (r: Option<nat>)
    requires n <= |s|
    ensures r.Some? ==> 0 < r.value <= n
  {
    if n == 0 then None
    else if s[n..] == "" || IsLevelPart(s[n..]) then Some(n)
    else Backtrack(s, n - 1)
  }

  /** The captured groups of the version regex. */
  function Captures(s: string, d: char -> bool): Option<(string, Option<string>)> {
    if s == "" || s[0] != 'v' then None
    else
      var digits := s[1..];
      match Backtrack(digits, Run(digits, d))
      case None => None
      case Some(n) => Some((digits[..n], if digits[n..] == "" then None else Some(digits[n..])))
  }

  function ParseLevelText(s: string, d: char -> bool): Result<Level, LevelError> {
    var n := Run(s, IsLower);
    if n == 0 || s[n..] == "" || !All(s[n..], d) then Err(InvalidLevelFormat)
    else
      match ParseU64(s[n..])
      case None => Err(ParseLevelVersion)
      case Some(number) => LevelNamed(s[..n], number)
  }

  function LevelNamed(name: string, n: nat): (r: Result<Level, LevelError>)
    ensures r.Ok? ==> LevelName(r.value) == name && r.value.n == n
  {
    if name == "alpha" then Ok(Alpha(n))
    else if name == "beta" then Ok(Beta(n))
    else Err(UnknownIdentifier)
  }

  function ParseVersion(s: string, d: char -> bool): Result<Version, VersionError> {
    match Captures(s, d)
    case None => Err(InvalidFormat)
    case Some((major, level)) =>
      match ParseU64(major)
      case None => Err(ParseMajorVersion)
      case Some(number) =>
        if level.None? then Ok(Version(number, None))
        else
          match ParseLevelText(level.value, d)
          case Ok(l) => Ok(Version(number, Some(l)))
          case Err(e) => Err(ParseLevel(e))
  }

  function LevelName(l: Level): string {
    if l.Alpha? then "alpha" else "beta"
  }

  function PrintLevel(l: Level): string {
    LevelName(l) + Print(l.n)
  }

  function PrintVersion(v: Version): string {
    "v" + Print(v.major) + if v.level.Some? then PrintLevel(v.level.value) else ""
  }

  // ----- The hand-written matching agrees with the regular expressions -----

  lemma LevelPartRegex(s: string)
    ensures Matches(LEVEL_PART, s) <==> IsLevelPart(s)
  {
    FramedUpTo(IsLowerAlnum, IsLowerAlnumOrDash, IsLowerAlnum, 60, s);
  }

  lemma LevelRegexSplit(s: string, d: char -> bool)
    requires IsDigitClass(d) && Matches(LevelRegex(d), s)
    ensures var n := Run(s, IsLower); n > 0 && s[n..] != "" && All(s[n..], d)
  {
    var i :| 0 <= i <= |s| && Matches(Plus(Class(IsLower)), s[..i]) && Matches(Plus(Class(d)), s[i..]);
    PlusOfClass(IsLower, s[..i]);
    PlusOfClass(d, s[i..]);
    assert s == s[..i] + s[i..];
    assert d(s[i..][0]) && !IsLower(s[i..][0]);
    RunOfConcat(s[..i], s[i..], IsLower);
  }

  lemma SplitMatchesLevelRegex(s: string, d: char -> bool)
    requires var n := Run(s, IsLower); n > 0 && s[n..] != "" && All(s[n..], d)
    ensures Matches(LevelRegex(d), s)
  {
    var n := Run(s, IsLower);
    PlusOfClass(IsLower, s[..n]);
    PlusOfClass(d, s[n..]);
    ThenIntro(Plus(Class(IsLower)), Plus(Class(d)), s[..n], s[n..]);
    assert s == s[..n] + s[n..];
  }

  /** The level regex splits a text at the end of its leading letters or not at all. */
  lemma LevelCapturesMatchRegex(s: string, d: char -> bool)
    requires IsDigitClass(d)
    ensures Matches(LevelRegex(d), s) <==> ParseLevelText(s, d) != Err(InvalidLevelFormat)
  {
    var n := Run(s, IsLower);
    if Matches(LevelRegex(d), s) {
      LevelRegexSplit(s, d);
    } else if n > 0 && s[n..] != "" && All(s[n..], d) {
      SplitMatchesLevelRegex(s, d);
      assert false;
    }
  }

  /** A way to split the text after the `v`. */
  predicate IsSplit(s: string, d: char -> bool, n: nat) {
    0 < n <= |s| && All(s[..n], d) && (s[n..] == "" || IsLevelPart(s[n..]))
  }

  lemma {:induction false} BacktrackFindsLongest(s: string, d: char -> bool, n: nat)
    requires n <= |s| && All(s[..n], d)
    ensures Backtrack(s, n) == None ==> forall m: nat :: m <= n ==> !IsSplit(s, d, m)
    ensures Backtrack(s, n).Some? ==> Backtrack(s, n).value <= n && IsSplit(s, d, Backtrack(s, n).value)
    ensures Backtrack(s, n).Some? ==> forall m: nat :: Backtrack(s, n).value < m <= n ==> !IsSplit(s, d, m)
  {
    if n > 0 {
      assert s[..n - 1] == s[..n][..n - 1];
      BacktrackFindsLongest(s, d, n - 1);
    }
  }

  lemma SplitRegex(s: string, d: char -> bool)
    ensures Matches(Then(Plus(Class(d)), Optional(LEVEL_PART)), s) <==> exists n: nat :: IsSplit(s, d, n)
  {
    var whole := Then(Plus(Class(d)), Optional(LEVEL_PART));
    if Matches(whole, s) {
      var n :| 0 <= n <= |s| && Matches(Plus(Class(d)), s[..n]) && Matches(Optional(LEVEL_PART), s[n..]);
      PlusOfClass(d, s[..n]);
      LevelPartRegex(s[n..]);
      assert Matches(LEVEL_PART, s[n..]) || Matches(Empty, s[n..]);
      assert IsSplit(s, d, n);
    }
    if n: nat :| IsSplit(s, d, n) {
      PlusOfClass(d, s[..n]);
      LevelPartRegex(s[n..]);
      OptionalIntro(Plus(Class(d)), LEVEL_PART, s[..n], s[n..]);
      assert s == s[..n] + s[n..];
    }
  }

  /** Backtracking finds a split exactly if the rest after the `v` is a word. */
  lemma BacktrackMatchesRegex(digits: string, d: char -> bool)
    ensures Backtrack(digits, Run(digits, d)).Some? <==> Matches(Then(Plus(Class(d)), Optional(LEVEL_PART)), digits)
  {
    var n := Run(digits, d);
    SplitRegex(digits, d);
    BacktrackFindsLongest(digits, d, n);
    forall m: nat | IsSplit(digits, d, m)
      ensures m <= n
    {
      RunIsLongest(digits, d, m);
    }
  }

  lemma VersionRegexHead(s: string, d: char -> bool)
    ensures Matches(VersionRegex(d), s) <==>
            s != "" && s[0] == 'v' && Matches(Then(Plus(Class(d)), Optional(LEVEL_PART)), s[1..])
  {
    var rest := Then(Plus(Class(d)), Optional(LEVEL_PART));
    if s != "" && s[0] == 'v' && Matches(rest, s[1..]) {
      ThenIntro(Char('v'), rest, s[..1], s[1..]);
      Halves(s, 1);
    }
    if Matches(VersionRegex(d), s) {
      var a, b := ThenElim(Char('v'), rest, s);
      assert |a| == 1 && b == s[1..];
    }
  }

  /** Backtracking finds a match exactly if the text is a word of the version regex. */
  lemma CapturesMatchRegex(s: string, d: char -> bool)
    ensures Captures(s, d).Some? <==> Matches(VersionRegex(d), s)
    ensures ParseVersion(s, d) == Err(InvalidFormat) <==> !Matches(VersionRegex(d), s)
  {
    VersionRegexHead(s, d);
    if s != "" {
      BacktrackMatchesRegex(s[1..], d);
    }
  }

  // ----- The grammar -----

  /** A numeral of `n`, leading zeros allowed. */
  predicate IsNumeral(s: string, n: nat) {
    s != "" && All(s, IsDigit) && Value(s) == n && n < 0x1_0000_0000_0000_0000
  }

  /** A level of at most 62 characters. */
  predicate IsLevelText(s: string, l: Level, digits: string) {
    && s == (match l case Alpha(_) => "alpha" case Beta(_) => "beta") + digits
    && IsNumeral(digits, l.n) && |s| <= 62
  }

  predicate Spells(s: string, v: Version, major: string, level: string, digits: string) {
    && s == "v" + (major + level) && IsNumeral(major, v.major)
    && if v.level.None? then level == "" else IsLevelText(level, v.level.value, digits)
  }

  /** `v` digits, optionally followed by `alpha` or `beta` and digits. */
  ghost predicate InGrammar(s: string, v: Version) {
    exists major, level, digits :: Spells(s, v, major, level, digits)
  }

  lemma DigitsAreInClass(s: string, d: char -> bool)
    requires IsDigitClass(d) && All(s, IsDigit)
    ensures All(s, d)
  {
  }

  /** Letters before digits: the run of letters is the name. */
  lemma LevelTextParses(s: string, l: Level, digits: string, d: char -> bool)
    requires IsDigitClass(d) && IsLevelText(s, l, digits)
    ensures ParseLevelText(s, d) == Ok(l) && IsLevelPart(s) && !d(s[0])
  {
    RunOfConcat(LevelName(l), digits, IsLower);
    DigitsAreInClass(digits, d);
    assert forall i :: 0 <= i < |s| ==> IsLowerAlnum(s[i]);
  }

  /** Letters and digits of a level: a number out of range is reported before an unknown name. */
  lemma LevelErrors(name: string, digits: string, d: char -> bool)
    requires name != "" && All(name, IsLower) && digits != "" && All(digits, d) && !IsLower(digits[0])
    ensures (forall n :: !IsNumeral(digits, n)) ==> ParseLevelText(name + digits, d) == Err(ParseLevelVersion)
    ensures (exists n :: IsNumeral(digits, n)) && name != "alpha" && name != "beta" ==>
              ParseLevelText(name + digits, d) == Err(UnknownIdentifier)
  {
    RunOfConcat(name, digits, IsLower);
    assert ParseU64(digits).Some? ==> IsNumeral(digits, ParseU64(digits).value);
  }

  /** The major version is parsed before the level. */
  lemma VersionErrors(major: string, level: string, d: char -> bool)
    requires major != "" && All(major, d) && (level == "" || (IsLevelPart(level) && !d(level[0])))
    ensures (forall n :: !IsNumeral(major, n)) ==> ParseVersion("v" + (major + level), d) == Err(ParseMajorVersion)
    ensures (exists n :: IsNumeral(major, n)) && level != "" && ParseLevelText(level, d).Err? ==>
              ParseVersion("v" + (major + level), d) == Err(ParseLevel(ParseLevelText(level, d).error))
  {
    SpelledIsCaptured(major, level, d);
    assert ParseU64(major).Some? ==> IsNumeral(major, ParseU64(major).value);
  }

  /** What parses as a level is one. */
  lemma ParsedLevelText(s: string, d: char -> bool)
    requires ParseLevelText(s, d).Ok? && |s| <= 62
    ensures IsLevelText(s, ParseLevelText(s, d).value, s[Run(s, IsLower)..])
  {
    var (n, l) := (Run(s, IsLower), ParseLevelText(s, d).value);
    assert LevelName(l) == s[..n] && IsNumeral(s[n..], l.n);
    Halves(s, n);
  }

  lemma SpelledIsCaptured(major: string, level: string, d: char -> bool)
    requires major != "" && All(major, d) && (level == "" || (IsLevelPart(level) && !d(level[0])))
    ensures Captures("v" + (major + level), d) == Some((major, if level == "" then None else Some(level)))
  {
    var rest := major + level;
    assert ("v" + rest)[1..] == rest;
    RunOfConcat(major, level, d);
    assert Backtrack(rest, |major|) == Some(|major|);
  }

  lemma SpelledIsParsed(s: string, v: Version, major: string, level: string, digits: string, d: char -> bool)
    requires IsDigitClass(d) && Spells(s, v, major, level, digits)
    ensures ParseVersion(s, d) == Ok(v)
  {
    DigitsAreInClass(major, d);
    if v.level.Some? {
      LevelTextParses(level, v.level.value, digits, d);
    }
    SpelledIsCaptured(major, level, d);
  }

  lemma CapturedIsSpelled(s: string, d: char -> bool)
    requires Captures(s, d).Some?
    ensures var (major, level) := Captures(s, d).value;
            && s == "v" + (major + level.GetOr(""))
            && (level.Some? ==> IsLevelPart(level.value))
  {
    var rest := s[1..];
    var n := Backtrack(rest, Run(rest, d)).value;
    BacktrackFindsLongest(rest, d, Run(rest, d));
    Halves(rest, n);
    Halves(s, 1);
    assert s[..1] == "v";
  }

  lemma ParsedIsSpelled(s: string, d: char -> bool)
    requires ParseVersion(s, d).Ok?
    ensures InGrammar(s, ParseVersion(s, d).value)
  {
    CapturedIsSpelled(s, d);
    var (major, level) := Captures(s, d).value;
    if level.None? {
      assert Spells(s, ParseVersion(s, d).value, major, "", "");
    } else {
      ParsedLevelText(level.value, d);
      assert Spells(s, ParseVersion(s, d).value, major, level.value, level.value[Run(level.value, IsLower)..]);
    }
  }

  /**
   * Parsing accepts exactly the grammar: neither the backtracking of the regex nor the second
   * parser lets anything else through, and the value is the one the grammar gives.
   */
  lemma ParseAcceptsExactlyTheGrammar(s: string, v: Version, d: char -> bool)
    requires IsDigitClass(d)
    ensures ParseVersion(s, d) == Ok(v) <==> InGrammar(s, v)
  {
    if InGrammar(s, v) {
      var major, level, digits :| Spells(s, v, major, level, digits);
      SpelledIsParsed(s, v, major, level, digits, d);
    }
    if ParseVersion(s, d) == Ok(v) {
      ParsedIsSpelled(s, d);
    }
  }

  /** Parsing a printed version gives the version back. */
  lemma VersionRoundTrip(v: Version, d: char -> bool)
    requires IsDigitClass(d) && IsU64(v)
    ensures ParseVersion(PrintVersion(v), d) == Ok(v)
  {
    var level := if v.level.Some? then PrintLevel(v.level.value) else "";
    var digits := if v.level.Some? then Print(v.level.value.n) else "";
    U64RoundTrip(v.major);
    if v.level.Some? {
      U64RoundTrip(v.level.value.n);
      assert IsLevelText(level, v.level.value, digits);
    }
    assert PrintVersion(v) == "v" + (Print(v.major) + level);
    SpelledIsParsed(PrintVersion(v), v, Print(v.major), level, digits, d);
  }

  // ----- API versions -----

  datatype ApiVersion = ApiVersion(group: Option<string>, version: Version)

  datatype ApiVersionError = BadVersion(version: VersionError) | BadGroup(group: GroupError)

  predicate NotSlash(c: char) {
    c != '/'
  }

  ghost function ParseApiVersion(s: string, d: char -> bool): Result<ApiVersion, ApiVersionError> {
    var n := Run(s, NotSlash);
    if n == |s| then
      match ParseVersion(s, d)
      case Ok(v) => Ok(ApiVersion(None, v))
      case Err(e) => Err(BadVersion(e))
    else
      match ParseGroup(s[..n])
      case Err(e) => Err(BadGroup(e))
      case Ok(group) =>
        match ParseVersion(s[n + 1..], d)
        case Ok(v) => Ok(ApiVersion(Some(group), v))
        case Err(e) => Err(BadVersion(e))
  }

  function PrintApiVersion(a: ApiVersion): string {
    (if a.group.Some? then a.group.value + "/" else "") + PrintVersion(a.version)
  }

  lemma PrintedVersionHasNoSlash(v: Version)
    ensures '/' !in PrintVersion(v)
  {
  }

  lemma FirstSlash(s: string) returns (g: string, t: string)
    requires '/' in s
    ensures s == g + "/" + t && '/' !in g
  {
    var n := Run(s, NotSlash);
    RunStops(s, NotSlash);
    assert s[..n] == s ==> '/' !in s;
    g, t := s[..n], s[n + 1..];
    Halves(s, n);
    assert s[n..] == "/" + t;
    Associative(g, "/", t);
  }

  lemma ParseAtSlash(g: string, t: string, a: ApiVersion, d: char -> bool)
    requires '/' !in g
    ensures ParseApiVersion(g + "/" + t, d) == Ok(a) <==>
            a.group == Some(g) && ParseGroup(g).Ok? && ParseVersion(t, d) == Ok(a.version)
  {
    RunOfConcat(g, "/" + t, NotSlash);
    Associative(g, "/", t);
    assert (g + "/" + t)[|g| + 1..] == t;
  }

  lemma ParseWithoutSlash(s: string, a: ApiVersion, d: char -> bool)
    requires '/' !in s
    ensures ParseApiVersion(s, d) == Ok(a) <==> a.group.None? && ParseVersion(s, d) == Ok(a.version)
  {
    RunOfConcat(s, "", NotSlash);
    assert s + "" == s;
  }

  lemma SlashIsFirst(g: string, t: string, h: string, u: string)
    requires '/' !in g && '/' !in h && g + "/" + t == h + "/" + u
    ensures g == h && t == u
  {
    RunOfConcat(g, "/" + t, NotSlash);
    RunOfConcat(h, "/" + u, NotSlash);
    Associative(g, "/", t);
    Associative(h, "/", u);
    assert "/" + t == "/" + u && t == ("/" + t)[1..] && u == ("/" + u)[1..];
  }

  /** API versions exactly: a version without a slash, or an accepted group, a slash and a version. */
  lemma ParseApiVersionExactly(s: string, a: ApiVersion, d: char -> bool)
    ensures ParseApiVersion(s, d) == Ok(a) <==>
            if a.group.None? then '/' !in s && ParseVersion(s, d) == Ok(a.version)
            else
              && ParseGroup(a.group.value).Ok?
              && exists t :: s == a.group.value + "/" + t && ParseVersion(t, d) == Ok(a.version)
  {
    if '/' in s {
      var g, t := FirstSlash(s);
      ParseAtSlash(g, t, a, d);
      if a.group.Some? && ParseGroup(a.group.value).Ok? {
        var h := a.group.value;
        GroupHasNoSlash(h);
        if u :| s == h + "/" + u && ParseVersion(u, d) == Ok(a.version) {
          SlashIsFirst(g, t, h, u);
        }
      }
    } else {
      ParseWithoutSlash(s, a, d);
      if a.group.Some? {
        forall t
          ensures s != a.group.value + "/" + t
        {
          assert '/' in a.group.value + "/" + t;
        }
      }
    }
  }

  /** Parsing a printed API version with a valid group, or none, gives the API version back. */
  lemma ApiVersionRoundTrip(a: ApiVersion, d: char -> bool)
    requires IsDigitClass(d) && IsU64(a.version)
    requires a.group.Some? ==> ParseGroup(a.group.value).Ok?
    ensures ParseApiVersion(PrintApiVersion(a), d) == Ok(a)
  {
    var text := PrintVersion(a.version);
    VersionRoundTrip(a.version, d);
    if a.group.Some? {
      GroupHasNoSlash(a.group.value);
      ParseAtSlash(a.group.value, text, a, d);
    } else {
      PrintedVersionHasNoSlash(a.version);
      ParseWithoutSlash(text, a, d);
      assert "" + text == text;
    }
  }
}
