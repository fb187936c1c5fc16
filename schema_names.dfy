/** `simplifySchemaName` of scripts/process-specs.ts: dropping the Kubernetes package prefix. */
module SchemaNames {
  import Strings

  predicate IsDigit(c: char) { '0' <= c <= '9' }

  predicate IsAsciiAlphanumeric(c: char) { 'a' <= c <= 'z' || 'A' <= c <= 'Z' || IsDigit(c) }

  /**
   * `/^v\d+[a-zA-Z0-9]*$/` matched with the digit run ending before index `n`: `v`, digits at
   * indices `1 .. n - 1` (at least one), then letters and digits up to the end.
   */
  ghost predicate VersionRegexSplit(part: string, n: int) {
    2 <= n <= |part| && part[0] == 'v'
    && (forall k :: 1 <= k < n ==> IsDigit(part[k]))
    && (forall k :: n <= k < |part| ==> IsAsciiAlphanumeric(part[k]))
  }

  /** `/^v\d+[a-zA-Z0-9]*$/.test(part)` */
  ghost predicate MatchesVersionRegex(part: string) {
    exists n :: VersionRegexSplit(part, n)
  }

  /** The version-segment test as computed: `v`, one digit, then letters and digits. */
  predicate IsVersionSegment(part: string) {
    |part| >= 2 && part[0] == 'v' && IsDigit(part[1])
    && forall k :: 2 <= k < |part| ==> IsAsciiAlphanumeric(part[k])
  }

  /** The computed test accepts exactly the strings the regular expression matches. */
  lemma VersionSegmentIsRegex(part: string)
    ensures IsVersionSegment(part) <==> MatchesVersionRegex(part)
  {
    if IsVersionSegment(part) {
      assert VersionRegexSplit(part, 2);
    }
    if MatchesVersionRegex(part) {
      var n :| VersionRegexSplit(part, n);
      assert IsDigit(part[1]);
      forall k | 2 <= k < |part| ensures IsAsciiAlphanumeric(part[k]) {
        if k < n { assert IsDigit(part[k]); }
      }
    }
  }

  /** `parts.findIndex(IsVersionSegment)`: the index of the first version segment, or -1. */
  function FirstVersionIndex(parts: seq<string>): (r: int)
    ensures -1 <= r < |parts|
    ensures r >= 0 ==> IsVersionSegment(parts[r])
    ensures forall j :: 0 <= j < |parts| && (r == -1 || j < r) ==> !IsVersionSegment(parts[j])
  {
    if |parts| == 0 then -1
    else if IsVersionSegment(parts[0]) then 0
    else
      var r := FirstVersionIndex(parts[1..]);
      if r == -1 then -1 else r + 1
  }

  /**
   * Removes everything up to and including the first dot-separated version segment,
   * unless there is none or it is the last part; the result is always a suffix of the name.
   */
  function SimplifySchemaName(schemaName: string): (r: string)
    ensures |r| <= |schemaName| && r == schemaName[|schemaName| - |r|..]
  {
    var parts := Strings.Split(schemaName, '.');
    var versionIndex := FirstVersionIndex(parts);
    if versionIndex != -1 && versionIndex + 1 < |parts| then
      var r := Strings.Join(parts[versionIndex + 1..], ".");
      CutAtVersion(schemaName, versionIndex);
      r
    else
      schemaName
  }

  /** Splitting at part `k` writes the name as the first `k + 1` parts, a dot, and the rest. */
  lemma CutAtVersion(name: string, k: nat)
    requires k + 1 < |Strings.Split(name, '.')|
    ensures var parts := Strings.Split(name, '.');
      name == Strings.Join(parts[..k + 1], ".") + "." + Strings.Join(parts[k + 1..], ".")
  {
    var parts := Strings.Split(name, '.');
    Strings.JoinSplit(name, '.');
    assert parts == parts[..k + 1] + parts[k + 1..];
    Strings.JoinAppend(parts[..k + 1], parts[k + 1..], ".");
  }

  /**
   * The defining property: a name made of dot-free parts ending in the first version segment,
   * a dot, and any rest simplifies to exactly that rest.
   */
  lemma {:induction false} SimplifyDropsVersionPrefix(prefix: seq<string>, rest: string)
    requires |prefix| >= 1
    requires forall k :: 0 <= k < |prefix| ==> '.' !in prefix[k]
    requires IsVersionSegment(prefix[|prefix| - 1])
    requires forall k :: 0 <= k < |prefix| - 1 ==> !IsVersionSegment(prefix[k])
    ensures SimplifySchemaName(Strings.Join(prefix, ".") + "." + rest) == rest
  {
    var name := Strings.Join(prefix, ".") + "." + rest;
    SplitAfterParts(prefix, rest);
    var parts := Strings.Split(name, '.');
    assert parts == prefix + Strings.Split(rest, '.');
    FirstVersionInPrefix(prefix, Strings.Split(rest, '.'));
    assert parts[|prefix|..] == Strings.Split(rest, '.');
    Strings.JoinSplit(rest, '.');
  }

  /** Splitting dot-free parts joined by dots, then a dot and a rest. */
  lemma {:induction false} SplitAfterParts(prefix: seq<string>, rest: string)
    requires |prefix| >= 1
    requires forall k :: 0 <= k < |prefix| ==> '.' !in prefix[k]
    ensures Strings.Split(Strings.Join(prefix, ".") + "." + rest, '.') == prefix + Strings.Split(rest, '.')
  {
    if |prefix| == 1 {
      Strings.SplitPrefix(prefix[0], rest, '.');
    } else {
      var later := prefix[1..];
      assert forall k :: 0 <= k < |later| ==> '.' !in later[k] by {
        forall k | 0 <= k < |later| ensures '.' !in later[k] { assert later[k] == prefix[k + 1]; }
      }
      var tail := Strings.Join(later, ".") + "." + rest;
      assert Strings.Join(prefix, ".") == prefix[0] + "." + Strings.Join(later, ".");
      assert Strings.Join(prefix, ".") + "." + rest == prefix[0] + ['.'] + tail;
      assert '.' !in prefix[0];
      Strings.SplitPrefix(prefix[0], tail, '.');
      SplitAfterParts(later, rest);
      assert prefix == [prefix[0]] + later;
      assert [prefix[0]] + (later + Strings.Split(rest, '.')) == prefix + Strings.Split(rest, '.');
    }
  }

  /** `findIndex` stops in the prefix when the prefix's last part is its first version segment. */
  lemma {:induction false} FirstVersionInPrefix(prefix: seq<string>, more: seq<string>)
    requires |prefix| >= 1
    requires IsVersionSegment(prefix[|prefix| - 1])
    requires forall k :: 0 <= k < |prefix| - 1 ==> !IsVersionSegment(prefix[k])
    ensures FirstVersionIndex(prefix + more) == |prefix| - 1
  {
    if |prefix| > 1 {
      assert (prefix + more)[1..] == prefix[1..] + more;
      FirstVersionInPrefix(prefix[1..], more);
    }
  }

  /**
   * A name is left unchanged exactly when no part other than the last is a version segment;
   * otherwise it gets strictly shorter.
   */
  lemma SimplifyUnchangedIff(schemaName: string)
    ensures var parts := Strings.Split(schemaName, '.');
      SimplifySchemaName(schemaName) == schemaName
      <==> forall j :: 0 <= j < |parts| - 1 ==> !IsVersionSegment(parts[j])
  {
    var parts := Strings.Split(schemaName, '.');
    var k := FirstVersionIndex(parts);
    if k != -1 && k + 1 < |parts| {
      SimplifyShortens(schemaName, parts, k);
      assert IsVersionSegment(parts[k]);
    } else {
      assert SimplifySchemaName(schemaName) == schemaName;
    }
  }

  /** Cutting at a version segment before the last part makes the name strictly shorter. */
  lemma SimplifyShortens(schemaName: string, parts: seq<string>, k: int)
    requires parts == Strings.Split(schemaName, '.') && k == FirstVersionIndex(parts)
    requires k != -1 && k + 1 < |parts|
    ensures |SimplifySchemaName(schemaName)| < |schemaName|
  {
    CutAtVersion(schemaName, k);
    var r := Strings.Join(parts[k + 1..], ".");
    assert SimplifySchemaName(schemaName) == r;
    assert |schemaName| == |Strings.Join(parts[..k + 1], ".")| + 1 + |r|;
  }

  /** A join of non-empty lists is at least as long as its last part. */
  lemma {:induction false} JoinHasLastPart(parts: seq<string>)
    requires |parts| >= 1
    ensures |Strings.Join(parts, ".")| >= |parts[|parts| - 1]|
  {
    if |parts| > 1 {
      JoinHasLastPart(parts[1..]);
    }
  }

  /**
   * A leading dot-free part that is not a version segment does not change where the cut
   * falls: when the rest is cut at all, the whole name simplifies to what the rest does.
   */
  lemma SimplifySkipsPart(part: string, rest: string)
    requires '.' !in part && !IsVersionSegment(part)
    requires SimplifySchemaName(rest) != rest
    ensures SimplifySchemaName(part + "." + rest) == SimplifySchemaName(rest)
  {
    var parts := Strings.Split(rest, '.');
    var k := FirstVersionIndex(parts);
    assert k != -1 && k + 1 < |parts|;
    assert SimplifySchemaName(rest) == Strings.Join(parts[k + 1..], ".");
    Strings.SplitPrefix(part, rest, '.');
    var all := Strings.Split(part + "." + rest, '.');
    assert all == [part] + parts;
    FirstVersionAfterPart(part, parts);
    assert all[k + 2..] == parts[k + 1..];
  }

  /** A leading part that is not a version segment moves the first version segment one place on. */
  lemma FirstVersionAfterPart(part: string, parts: seq<string>)
    requires !IsVersionSegment(part)
    requires FirstVersionIndex(parts) != -1
    ensures FirstVersionIndex([part] + parts) == FirstVersionIndex(parts) + 1
  {
    assert ([part] + parts)[1..] == parts;
  }

  /**
   * The example of the source's doc comment: `io.k8s.apimachinery.pkg.apis.meta.v1.Time` becomes `Time`.
   * The name comes in as its parts, so that the proof does not have to split the literal.
   */
  lemma SimplifyKubernetesTime(parts: seq<string>)
    requires parts == ["io", "k8s", "apimachinery", "pkg", "apis", "meta", "v1", "Time"]
    ensures SimplifySchemaName(Strings.Join(parts, ".")) == "Time"
  {
    var prefix := parts[..7];
    assert parts == prefix + ["Time"];
    Strings.JoinAppend(prefix, ["Time"], ".");
    KubernetesPrefix(prefix);
    SimplifyDropsVersionPrefix(prefix, "Time");
  }

  /** The package prefix of a Kubernetes name: dot-free parts whose only version segment is the last. */
  lemma KubernetesPrefix(prefix: seq<string>)
    requires prefix == ["io", "k8s", "apimachinery", "pkg", "apis", "meta", "v1"]
    ensures forall k :: 0 <= k < |prefix| ==> '.' !in prefix[k]
    ensures IsVersionSegment(prefix[|prefix| - 1])
    ensures forall k :: 0 <= k < |prefix| - 1 ==> !IsVersionSegment(prefix[k])
  {
    forall k | 0 <= k < |prefix| - 1 ensures '.' !in prefix[k] && !IsVersionSegment(prefix[k]) {
      assert prefix[k][0] != 'v' && '.' !in prefix[k];
    }
    assert IsDigit(prefix[6][1]);
  }

  /**
   * Only the first version segment decides the cut: the name keeps every part after it,
   * later version segments included.
   */
  lemma SimplifyCutsAtFirstVersion(schemaName: string, first: nat, later: nat)
    requires var parts := Strings.Split(schemaName, '.');
      first < later < |parts| && IsVersionSegment(parts[first]) && IsVersionSegment(parts[later])
      && forall k :: 0 <= k < first ==> !IsVersionSegment(parts[k])
    ensures var parts := Strings.Split(schemaName, '.');
      Strings.Split(SimplifySchemaName(schemaName), '.') == parts[first + 1..]
      && parts[later] in Strings.Split(SimplifySchemaName(schemaName), '.')
  {
    var parts := Strings.Split(schemaName, '.');
    assert FirstVersionIndex(parts) == first by {
      var r := FirstVersionIndex(parts);
      assert r != -1 by { assert IsVersionSegment(parts[first]); }
      assert !(r < first);
      assert !(first < r);
    }
    var kept := parts[first + 1..];
    assert SimplifySchemaName(schemaName) == Strings.Join(kept, ['.']);
    assert forall k :: 0 <= k < |kept| ==> '.' !in kept[k] by {
      forall k | 0 <= k < |kept| ensures '.' !in kept[k] {
        assert kept[k] == parts[first + 1 + k];
      }
    }
    Strings.SplitJoin(kept, '.');
    assert kept[later - first - 1] == parts[later];
  }
}
