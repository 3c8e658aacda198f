/**
 * Label-by-label name matching (`equal` and `WildcardMatch` in pdsql.go) and the
 * minimal `dns.SplitDomainName` they rest on.
 */
module Labels {
  import opened Strings

  /** Drops the empty field that `Split` leaves after a final dot. */
  function DropFinalEmpty(parts: seq<string>): (r: seq<string>)
    ensures r == parts || (parts != [] && parts[|parts| - 1] == "" && r == parts[..|parts| - 1])
  {
    if parts != [] && parts[|parts| - 1] == "" then parts[..|parts| - 1] else parts
  }

  /**
   * `dns.SplitDomainName`, without escapes: the labels between dots, with the empty
   * label after a final dot dropped; the root "." and "" have no labels.
   */
  function SplitDomainName(s: string): (labels: seq<string>)
    ensures s == "" || s == "." ==> labels == []
  {
    if s == "." then [] else DropFinalEmpty(Split(s, '.'))
  }

  /** No label contains a dot. */
  lemma SplitDomainNameSepFree(s: string)
    ensures SepFree(SplitDomainName(s), '.')
  {
    SplitSepFree(s, '.');
  }

  /** Joining the labels with dots gives the name back, without its final dot. */
  lemma SplitDomainNameJoin(s: string)
    requires s != "" && s != "."
    ensures |SplitDomainName(s)| >= 1
    ensures Join(SplitDomainName(s), '.') == TrimDot(s)
  {
    var parts := Split(s, '.');
    JoinSplit(s, '.');
    if parts[|parts| - 1] == "" {
      var labels := parts[..|parts| - 1];
      assert SplitDomainName(s) == labels;
      DroppedEmptyJoin(parts, s);
    } else {
      assert SplitDomainName(s) == parts;
      if HasDotSuffix(s) {
        SplitTrailingSep(s, '.');
        assert false;
      }
      assert TrimDot(s) == s;
    }
  }

  /** When the last field is empty, the other fields joined are the name before its final dot. */
  lemma DroppedEmptyJoin(parts: seq<string>, s: string)
    requires |parts| >= 1 && parts[|parts| - 1] == "" && Join(parts, '.') == s && s != ""
    ensures |parts| >= 2 && TrimDot(s) == Join(parts[..|parts| - 1], '.')
  {
    assert |parts| >= 2 by {
      if |parts| == 1 {
        assert false;
      }
    }
    var labels := parts[..|parts| - 1];
    var j := Join(labels, '.');
    assert j + "." == s by {
      SplitLast(parts);
      JoinAppend(labels, [parts[|parts| - 1]], '.');
    }
    assert s[..|s| - 1] == j;
  }

  lemma SplitAfterLabel(leftmost: string, zone: string)
    requires '.' !in leftmost
    ensures Split(leftmost + "." + zone, '.') == [leftmost] + Split(zone, '.')
  {
    SplitAppend(leftmost, '.', zone);
    SplitJoin([leftmost], '.');
  }

  lemma DropFinalEmptyCons(leftmost: string, parts: seq<string>)
    requires |parts| >= 1
    ensures DropFinalEmpty([leftmost] + parts) == [leftmost] + DropFinalEmpty(parts)
  {
    var all := [leftmost] + parts;
    assert all[|all| - 1] == parts[|parts| - 1];
    if parts[|parts| - 1] == "" {
      assert all[..|all| - 1] == [leftmost] + parts[..|parts| - 1];
    }
  }

  /** Splitting `leftmost.zone` gives `leftmost` followed by the labels of `zone`. */
  lemma SplitDomainNameCons(leftmost: string, zone: string)
    requires leftmost != "" && '.' !in leftmost && zone != "."
    ensures SplitDomainName(leftmost + "." + zone) == [leftmost] + SplitDomainName(zone)
  {
    SplitAfterLabel(leftmost, zone);
    DropFinalEmptyCons(leftmost, Split(zone, '.'));
  }

  /** The ASCII-only case fold of `equal`: 'A'..'Z' get bit 0x20 set, every other character is kept. */
  function Fold(c: char): (r: char)
    ensures 'A' <= c <= 'Z' ==> r as int == c as int + 0x20
    ensures !('A' <= c <= 'Z') ==> r == c
    ensures !('A' <= r <= 'Z')
  {
    if 'A' <= c <= 'Z' then (c as int + 0x20) as char else c
  }

  /** What `equal(a, b)` decides: `*` on either side matches, otherwise equal length and equal after folding. */
  predicate LabelEqual(a: string, b: string) {
    a == "*" || b == "*" ||
    (|a| == |b| && forall i :: 0 <= i < |a| ==> Fold(a[i]) == Fold(b[i]))
  }

  /** `equal(a, b)`: compares from the last character to the first, folding both sides. */
  method Equal(a: string, b: string) returns (r: bool)
    ensures r == LabelEqual(a, b)
  {
    if b == "*" || a == "*" {
      return true;
    }
    if |a| != |b| {
      return false;
    }
    var i := |a| - 1;
    while i >= 0
      invariant -1 <= i < |a|
      invariant forall k :: i < k < |a| ==> Fold(a[k]) == Fold(b[k])
    {
      var ai, bi := a[i], b[i];
      if 'A' <= ai <= 'Z' {
        ai := (ai as int + 0x20) as char;
      }
      if 'A' <= bi <= 'Z' {
        bi := (bi as int + 0x20) as char;
      }
      if ai != bi {
        return false;
      }
      i := i - 1;
    }
    return true;
  }

  /** A string with every character folded; the reference for case-insensitive equality. */
  function Lower(s: string): (r: string)
    ensures |r| == |s|
    ensures forall i :: 0 <= i < |s| ==> r[i] == Fold(s[i])
  {
    if s == [] then [] else [Fold(s[0])] + Lower(s[1..])
  }

  /** `equal` is ASCII-case-insensitive string equality, with `*` as a match-all leftmost. */
  lemma LabelEqualIsCaseInsensitive(a: string, b: string)
    ensures LabelEqual(a, b) <==> a == "*" || b == "*" || Lower(a) == Lower(b)
  {
    if Lower(a) == Lower(b) {
      assert forall i :: 0 <= i < |a| ==> Fold(a[i]) == Lower(b)[i];
    }
  }

  /** `equal` is reflexive and symmetric, and ignores ASCII case. */
  lemma LabelEqualProperties(a: string, b: string)
    ensures LabelEqual(a, a)
    ensures LabelEqual(a, b) == LabelEqual(b, a)
    ensures LabelEqual("Example", "example")
    ensures LabelEqual(a, "*") && LabelEqual("*", b)
  {
    assert Fold('E') == 'e';
  }

  /** `equal` is not transitive: `*` bridges two different labels. */
  lemma LabelEqualNotTransitive()
    ensures LabelEqual("a", "*") && LabelEqual("*", "b") && !LabelEqual("a", "b")
  {
    assert Fold('a') != Fold('b');
  }

  /** Two label lists of the same length that agree under `equal` position by position. */
  predicate LabelsMatch(l1: seq<string>, l2: seq<string>) {
    |l1| == |l2| && forall i :: 0 <= i < |l1| ==> LabelEqual(l1[i], l2[i])
  }

  /** What `WildcardMatch(s1, s2)` decides. */
  predicate WildcardMatches(s1: string, s2: string) {
    s1 == "." || s2 == "." || LabelsMatch(SplitDomainName(s1), SplitDomainName(s2))
  }

  /** `WildcardMatch(s1, s2)`: the root matches anything; otherwise same label count and `equal` at every position. */
  method WildcardMatch(s1: string, s2: string) returns (r: bool)
    ensures r == WildcardMatches(s1, s2)
  {
    if s1 == "." || s2 == "." {
      return true;
    }
    var l1 := SplitDomainName(s1);
    var l2 := SplitDomainName(s2);
    r := EqualLabels(l1, l2);
  }

  /** The length test and the label loop of `WildcardMatch`. */
  method EqualLabels(l1: seq<string>, l2: seq<string>) returns (r: bool)
    ensures r == LabelsMatch(l1, l2)
  {
    if |l1| != |l2| {
      return false;
    }
    for i := 0 to |l1|
      invariant forall k :: 0 <= k < i ==> LabelEqual(l1[k], l2[k])
    {
      var same := Equal(l1[i], l2[i]);
      if !same {
        return false;
      }
    }
    return true;
  }

  /** Matching is symmetric. */
  lemma WildcardMatchesSymmetric(s1: string, s2: string)
    ensures WildcardMatches(s1, s2) == WildcardMatches(s2, s1)
  {
    var l1, l2 := SplitDomainName(s1), SplitDomainName(s2);
    forall i | 0 <= i < |l1| && i < |l2|
      ensures LabelEqual(l1[i], l2[i]) == LabelEqual(l2[i], l1[i])
    {
      LabelEqualProperties(l1[i], l2[i]);
    }
  }

  /** Names with different label counts never match (unless one of them is the root). */
  lemma WildcardNeedsSameDepth(s1: string, s2: string)
    requires s1 != "." && s2 != "."
    requires |SplitDomainName(s1)| != |SplitDomainName(s2)|
    ensures !WildcardMatches(s1, s2)
  {
  }

  lemma StarLabels(zone: string)
    requires zone != "."
    ensures SplitDomainName("*." + zone) == ["*"] + SplitDomainName(zone)
  {
    assert "*." + zone == "*" + "." + zone;
    SplitDomainNameCons("*", zone);
  }

  lemma LabelsMatchStarHead(leftmost: string, rest: seq<string>)
    ensures LabelsMatch([leftmost] + rest, ["*"] + rest)
  {
    var l1, l2 := [leftmost] + rest, ["*"] + rest;
    forall i | 0 <= i < |l1| ensures LabelEqual(l1[i], l2[i]) {
      if i > 0 {
        LabelEqualProperties(rest[i - 1], rest[i - 1]);
      }
    }
  }

  /** A leading `*` label matches any one label in front of the same zone. */
  lemma StarMatchesOneLabel(leftmost: string, zone: string)
    requires leftmost != "" && '.' !in leftmost && zone != "."
    ensures WildcardMatches(leftmost + "." + zone, "*." + zone)
  {
    SplitDomainNameCons(leftmost, zone);
    StarLabels(zone);
    LabelsMatchStarHead(leftmost, SplitDomainName(zone));
  }

  /** A `*` label stands for exactly one label: two labels in front of the zone do not match. */
  lemma StarDoesNotMatchTwoLabels(first: string, second: string, zone: string)
    requires first != "" && '.' !in first && second != "" && '.' !in second && zone != "."
    ensures !WildcardMatches(first + "." + second + "." + zone, "*." + zone)
  {
    var name := first + "." + second + "." + zone;
    TwoLabelsDepth(first, second, zone);
    StarLabels(zone);
    WildcardNeedsSameDepth(name, "*." + zone);
  }

  lemma TwoLabelsDepth(first: string, second: string, zone: string)
    requires first != "" && '.' !in first && second != "" && '.' !in second && zone != "."
    ensures first + "." + second + "." + zone != "."
    ensures |SplitDomainName(first + "." + second + "." + zone)| == |SplitDomainName(zone)| + 2
  {
    var inner := second + "." + zone;
    SplitDomainNameCons(second, zone);
    assert inner != ".";
    assert first + "." + second + "." + zone == first + "." + inner;
    SplitDomainNameCons(first, inner);
  }

  /** A wildcard never matches its own zone apex. */
  lemma StarDoesNotMatchApex(zone: string)
    requires zone != "" && zone != "."
    ensures !WildcardMatches(zone, "*." + zone)
  {
    StarLabels(zone);
  }

  // The three rows of the wildcard test table that agree with the code. The names are
  // parameters fixed by the requires clauses, so that the verifier reasons from the
  // lemmas above instead of evaluating the literals character by character.

  /** `*.example.org.` matches `a.example.org.`. */
  lemma WildcardExampleA(pattern: string, zone: string, name: string)
    requires pattern == "*.example.org." && zone == "example.org." && name == "a.example.org."
    ensures WildcardMatches(name, pattern)
  {
    assert pattern == "*." + zone;
    assert name == "a" + "." + zone;
    StarMatchesOneLabel("a", zone);
  }

  /** `*.example.org.` matches `abcd.example.org.`. */
  lemma WildcardExampleAbcd(pattern: string, zone: string, name: string)
    requires pattern == "*.example.org." && zone == "example.org." && name == "abcd.example.org."
    ensures WildcardMatches(name, pattern)
  {
    assert pattern == "*." + zone;
    assert name == "abcd" + "." + zone;
    StarMatchesOneLabel("abcd", zone);
  }

  /** `*.example.org.` does not match `example.org.`. */
  lemma WildcardExampleApex(pattern: string, zone: string)
    requires pattern == "*.example.org." && zone == "example.org."
    ensures !WildcardMatches(zone, pattern)
  {
    assert pattern == "*." + zone;
    StarDoesNotMatchApex(zone);
  }
}
