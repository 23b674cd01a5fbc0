/** Shortened names and the names of role group resources that are derived from them. */
module ResourceNames {
  import opened Wrappers
  import opened Text
  import opened Regex
  import opened Utf8
  import opened DnsNames

  const CLUSTER_NAME_MAX_LENGTH := 40
  const QUALIFIED_NAME_MAX_LENGTH := 52
  const STATEFUL_SET_NAME_MAX_LENGTH := 52
  const HASH_LENGTH := 6

  /** A SHA-256 digest in hexadecimal digits. */
  predicate IsDigest(digest: string) {
    |digest| == 64 && All(digest, c => '0' <= c <= '9' || 'a' <= c <= 'f')
  }

  // ----- Length enforcement -----

  /** The name before the hash: one character makes room for a dash, a dash at the end is reused. */
  function WithSeparator(truncated: string): string
    requires truncated != ""
  {
    var name, removed := truncated[..|truncated| - 1], truncated[|truncated| - 1];
    if name == "" then ""
    else if name[|name| - 1] != '-' || removed == '-' then name + "-"
    else name
  }

  /** What is left of `original`, whose digest is `digest`. */
  function Shortened(original: string, maxBytes: nat, hashLength: nat, digest: string): string
    requires hashLength <= 64 && maxBytes >= 2 + hashLength && IsDigest(digest)
  {
    if Bytes(original) <= maxBytes then original
    else if hashLength == 0 then LongestPrefix(original, maxBytes)
    else
      var truncated := LongestPrefix(original, maxBytes - hashLength);
      if truncated == "" then digest[..hashLength] else WithSeparator(truncated) + digest[..hashLength]
  }

  /** Truncates, pops and pushes step by step. */
  method EnsureMaxStringLength(original: string, maxBytes: nat, hashLength: nat, digest: string) returns (r: string)
    requires hashLength <= 64 && maxBytes >= 1 + 1 + hashLength && IsDigest(digest)
    ensures r == Shortened(original, maxBytes, hashLength, digest)
    ensures Bytes(r) <= maxBytes
  {
    ShortenedFits(original, maxBytes, hashLength, digest);
    if Bytes(original) <= maxBytes {
      return original;
    }
    if hashLength == 0 {
      return LongestPrefix(original, maxBytes);
    }
    var hash := digest[..hashLength];
    var name := LongestPrefix(original, maxBytes - hashLength);
    var removed := None;
    if name != "" {
      removed := Some(name[|name| - 1]);
      name := name[..|name| - 1];
    }
    if name == "" {
      return hash;
    }
    if name[|name| - 1] != '-' || removed == Some('-') {
      name := name + "-";
    }
    return name + hash;
  }

  lemma {:induction false} HexIsAscii(digest: string, n: nat)
    requires IsDigest(digest) && n <= 64
    ensures Bytes(digest[..n]) == n
  {
    AsciiBytes(digest[..n], 0);
  }

  /** The result never exceeds the limit. */
  lemma ShortenedFits(original: string, maxBytes: nat, hashLength: nat, digest: string)
    requires hashLength <= 64 && maxBytes >= 2 + hashLength && IsDigest(digest)
    ensures Bytes(Shortened(original, maxBytes, hashLength, digest)) <= maxBytes
  {
    if Bytes(original) > maxBytes {
      var n := maxBytes - hashLength;
      LongestPrefixIsLongest(original, maxBytes, FitCount(original, maxBytes));
      LongestPrefixIsLongest(original, n, FitCount(original, n));
      HexIsAscii(digest, hashLength);
      var truncated := LongestPrefix(original, n);
      if truncated != "" {
        var name := truncated[..|truncated| - 1];
        DropLast(truncated);
        EncodeConcat(name, "-");
        assert Encode("-") == EncodeChar('-') + Encode("");
        EncodeConcat(WithSeparator(truncated), digest[..hashLength]);
      }
    }
  }

  /** What fits is not changed; without a hash the longest prefix that fits is left. */
  lemma ShortenedWithoutHash(original: string, maxBytes: nat, hashLength: nat, digest: string, k: nat)
    requires hashLength <= 64 && maxBytes >= 2 + hashLength && IsDigest(digest) && k <= |original|
    ensures Bytes(original) <= maxBytes ==> Shortened(original, maxBytes, hashLength, digest) == original
    ensures hashLength == 0 ==>
              && Shortened(original, maxBytes, hashLength, digest) <= original
              && (Bytes(original[..k]) <= maxBytes ==> k <= |Shortened(original, maxBytes, hashLength, digest)|)
  {
    LongestPrefixIsLongest(original, maxBytes, k);
  }

  /**
   * A shortened name is a prefix of the original, a dash unless one at the end of the prefix is
   * reused, and the hash; the prefix has one character less than would fit before the hash.
   */
  lemma ShortenedShape(original: string, maxBytes: nat, hashLength: nat, digest: string) returns (k: nat)
    requires 0 < hashLength <= 64 && maxBytes >= 2 + hashLength && IsDigest(digest)
    requires Bytes(original) > maxBytes
    ensures k < |original| && (k > 0 ==> k + 1 == FitCount(original, maxBytes - hashLength))
    ensures k == 0 <==> FitCount(original, maxBytes - hashLength) <= 1
    ensures var r := Shortened(original, maxBytes, hashLength, digest);
            r == if k == 0 then digest[..hashLength]
                 else if original[k - 1] == '-' && original[k] != '-' then original[..k] + digest[..hashLength]
                 else original[..k] + "-" + digest[..hashLength]
  {
    var n := maxBytes - hashLength;
    k := if FitCount(original, n) == 0 then 0 else FitCount(original, n) - 1;
    var truncated := LongestPrefix(original, n);
    if truncated != "" {
      assert truncated[..|truncated| - 1] == original[..k];
    } else {
      assert original != "";
    }
  }

  // ----- Role group names -----

  ghost predicate IsClusterName(s: string) {
    Bytes(s) <= CLUSTER_NAME_MAX_LENGTH && IsRfc1035Label(s) && IsLabelValue(s)
  }

  ghost predicate IsRoleName(s: string) {
    IsRfc1123Label(s) && IsLabelValue(s)
  }

  ghost predicate IsQualifiedName(s: string) {
    Bytes(s) <= QUALIFIED_NAME_MAX_LENGTH && IsRfc1035Label(s) && IsLabelValue(s)
  }

  function Concatenated(cluster: string, role: string, roleGroup: string): string {
    cluster + "-" + role + "-" + roleGroup
  }

  function QualifiedRoleGroupName(cluster: string, role: string, roleGroup: string, digest: string): string
    requires IsDigest(digest)
  {
    Shortened(Concatenated(cluster, role, roleGroup), QUALIFIED_NAME_MAX_LENGTH, HASH_LENGTH, digest)
  }

  lemma ConcatenatedIsDashed(cluster: string, role: string, roleGroup: string)
    requires IsDashed(cluster) && IsDashed(role) && IsDashed(roleGroup)
    ensures IsDashed(Concatenated(cluster, role, roleGroup))
    ensures IsAscii(Concatenated(cluster, role, roleGroup))
  {
  }

  /** Cutting a dashed name and appending a hash gives a dashed name again. */
  lemma PrefixWithHashIsDashed(name: string, k: nat, separator: string, hash: string)
    requires IsDashed(name) && 0 < k <= |name| && (separator == "" || separator == "-")
    requires hash != "" && All(hash, IsLowerAlnum)
    ensures IsDashed(name[..k] + separator + hash)
    ensures (name[..k] + separator + hash)[..k] == name[..k]
  {
  }

  /** A long dashed name keeps its first 45 characters before the hash. */
  lemma ShortenedDashed(name: string, digest: string) returns (separator: string)
    requires IsDashed(name) && IsDigest(digest) && |name| > QUALIFIED_NAME_MAX_LENGTH
    ensures separator == if name[44] == '-' && name[45] != '-' then "" else "-"
    ensures Shortened(name, QUALIFIED_NAME_MAX_LENGTH, HASH_LENGTH, digest) ==
            name[..45] + separator + digest[..HASH_LENGTH]
  {
    DashedIsAscii(name);
    AsciiFitCount(name, QUALIFIED_NAME_MAX_LENGTH - HASH_LENGTH);
    var k := ShortenedShape(name, QUALIFIED_NAME_MAX_LENGTH, HASH_LENGTH, digest);
    assert k == 45;
    separator := if name[44] == '-' && name[45] != '-' then "" else "-";
    if separator == "" {
      assert name[..45] + separator == name[..45];
    }
  }

  /** A dashed name that is shortened is dashed again and keeps its first 45 characters. */
  lemma ShortenedKeepsFormat(name: string, digest: string)
    requires IsDashed(name) && IsDigest(digest)
    ensures var r := Shortened(name, QUALIFIED_NAME_MAX_LENGTH, HASH_LENGTH, digest);
            && IsDashed(r) && |r| <= QUALIFIED_NAME_MAX_LENGTH
            && (|name| > QUALIFIED_NAME_MAX_LENGTH ==> |r| >= 45 && r[..45] == name[..45])
  {
    DashedIsAscii(name);
    if |name| > QUALIFIED_NAME_MAX_LENGTH {
      var separator := ShortenedDashed(name, digest);
      PrefixWithHashIsDashed(name, 45, separator, digest[..HASH_LENGTH]);
    }
  }

  /**
   * For all valid names, the qualified name is an RFC 1035 label of at most 52 bytes, and it starts
   * with the whole cluster name, a dash and at least four characters of the role name (all, if it
   * has fewer).
   */
  lemma QualifiedNameIsValid(cluster: string, role: string, roleGroup: string, digest: string)
    requires IsClusterName(cluster) && IsRoleName(role) && IsRoleName(roleGroup) && IsDigest(digest)
    ensures IsQualifiedName(QualifiedRoleGroupName(cluster, role, roleGroup, digest))
    ensures cluster + "-" + role[..if |role| < 4 then |role| else 4]
         <= QualifiedRoleGroupName(cluster, role, roleGroup, digest)
  {
    var name := Concatenated(cluster, role, roleGroup);
    var start := cluster + "-" + role[..if |role| < 4 then |role| else 4];
    LabelFormats(cluster);
    LabelFormats(role);
    LabelFormats(roleGroup);
    DashedIsAscii(cluster);
    ConcatenatedIsDashed(cluster, role, roleGroup);
    ConcatenatedStarts(cluster, role, roleGroup, |start| - |cluster| - 1);
    ShortenedKeepsFormat(name, digest);
    ShortenedKeepsStart(name, digest, start);
    DashedIsQualified(QualifiedRoleGroupName(cluster, role, roleGroup, digest), cluster[0]);
  }

  /**
   * The qualified name itself: the three names joined by dashes if that has at most 52 characters,
   * else the first 45 characters of it, a dash unless the last of them is one that no dash follows,
   * and six digits of the digest.
   */
  lemma QualifiedNameText(cluster: string, role: string, roleGroup: string, digest: string)
    requires IsClusterName(cluster) && IsRoleName(role) && IsRoleName(roleGroup) && IsDigest(digest)
    ensures var joined := cluster + "-" + role + "-" + roleGroup;
            QualifiedRoleGroupName(cluster, role, roleGroup, digest) ==
            if |cluster| + |role| + |roleGroup| + 2 <= 52 then joined
            else joined[..45] + (if joined[44] == '-' && joined[45] != '-' then "" else "-") + digest[..6]
  {
    var name := Concatenated(cluster, role, roleGroup);
    LabelFormats(cluster);
    LabelFormats(role);
    LabelFormats(roleGroup);
    ConcatenatedIsDashed(cluster, role, roleGroup);
    DashedIsAscii(name);
    if |name| > QUALIFIED_NAME_MAX_LENGTH {
      var separator := ShortenedDashed(name, digest);
    }
  }

  /** Role groups of one role have different names if these fit. */
  lemma RoleGroupsHaveOwnNames(
    cluster: string, role: string, roleGroup: string, digest: string, other: string, otherDigest: string)
    requires IsClusterName(cluster) && IsRoleName(role) && IsRoleName(roleGroup) && IsRoleName(other)
    requires IsDigest(digest) && IsDigest(otherDigest) && roleGroup != other
    requires |cluster| + |role| + |roleGroup| + 2 <= 52 && |cluster| + |role| + |other| + 2 <= 52
    ensures QualifiedRoleGroupName(cluster, role, roleGroup, digest) !=
            QualifiedRoleGroupName(cluster, role, other, otherDigest)
  {
    QualifiedNameText(cluster, role, roleGroup, digest);
    QualifiedNameText(cluster, role, other, otherDigest);
    var start := cluster + "-" + role + "-";
    assert (start + roleGroup)[|start|..] == roleGroup && (start + other)[|start|..] == other;
  }

  lemma ConcatenatedStarts(cluster: string, role: string, roleGroup: string, n: nat)
    requires n <= |role|
    ensures cluster + "-" + role[..n] <= Concatenated(cluster, role, roleGroup)
  {
    assert role == role[..n] + role[n..];
  }

  lemma DashedIsQualified(s: string, first: char)
    requires IsDashed(s) && |s| <= QUALIFIED_NAME_MAX_LENGTH && s[0] == first && IsLower(first)
    ensures IsQualifiedName(s)
  {
    DashedIsAscii(s);
    LabelFormats(s);
    LabelsAreSubdomainsAndLabelValues(s);
  }

  lemma ShortenedKeepsStart(name: string, digest: string, start: string)
    requires IsDashed(name) && IsDigest(digest) && start <= name && |start| <= 45
    ensures start <= Shortened(name, QUALIFIED_NAME_MAX_LENGTH, HASH_LENGTH, digest)
  {
    var r := Shortened(name, QUALIFIED_NAME_MAX_LENGTH, HASH_LENGTH, digest);
    DashedIsAscii(name);
    ShortenedKeepsFormat(name, digest);
    if |name| > QUALIFIED_NAME_MAX_LENGTH {
      assert start == name[..45][..|start|] == r[..45][..|start|];
    }
  }

  // ----- Resource names -----

  const HEADLESS_SUFFIX := "-headless"
  const METRICS_SUFFIX := "-metrics"

  ghost predicate IsStatefulSetName(s: string) {
    Bytes(s) <= STATEFUL_SET_NAME_MAX_LENGTH && IsRfc1123Label(s) && IsLabelValue(s)
  }

  ghost predicate IsServiceName(s: string) {
    IsRfc1035Label(s) && IsLabelValue(s)
  }

  lemma SuffixKeepsLabel(qualified: string, suffix: string)
    requires IsQualifiedName(qualified)
    requires |suffix| <= 11 && suffix != "" && All(suffix, IsLowerAlnumOrDash) && IsLowerAlnum(suffix[|suffix| - 1])
    ensures IsServiceName(qualified + suffix)
  {
    var name := qualified + suffix;
    LabelFormats(qualified);
    assert name[|name| - 1] == suffix[|suffix| - 1] && name[0] == qualified[0];
    assert All(name, IsLowerAlnumOrDash);
    DashedIsAscii(name);
    DashedIsAscii(qualified);
    LabelFormats(name);
    LabelsAreSubdomainsAndLabelValues(name);
  }

  /** Every resource name that is derived from a qualified name satisfies the format of its kind. */
  lemma DerivedNamesAreValid(cluster: string, role: string, roleGroup: string, digest: string)
    requires IsClusterName(cluster) && IsRoleName(role) && IsRoleName(roleGroup) && IsDigest(digest)
    ensures var qualified := QualifiedRoleGroupName(cluster, role, roleGroup, digest);
            && IsRfc1123Subdomain(qualified)                 // ConfigMap, DaemonSet and Listener
            && IsRfc1123Label(qualified)                     // Deployment
            && IsStatefulSetName(qualified)
            && IsServiceName(qualified + "-headless")
            && IsServiceName(qualified + "-metrics")
  {
    var qualified := QualifiedRoleGroupName(cluster, role, roleGroup, digest);
    QualifiedNameIsValid(cluster, role, roleGroup, digest);
    LabelsAreSubdomainsAndLabelValues(qualified);
    SuffixKeepsLabel(qualified, HEADLESS_SUFFIX);
    SuffixKeepsLabel(qualified, METRICS_SUFFIX);
  }
}
