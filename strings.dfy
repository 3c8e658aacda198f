/**
 * The handful of Go `strings` operations the resolver uses, on `string` = `seq<char>`:
 * `strings.IndexRune`, `strings.Split` with a one-character separator (and its inverse,
 * a join), `strings.HasSuffix(s, ".")`, `strings.TrimSuffix(s, ".")` and the
 * "append a dot unless present" idiom.
 */
module Strings {

  /** `strings.HasSuffix(s, ".")` */
  predicate HasDotSuffix(s: string) {
    |s| > 0 && s[|s| - 1] == '.'
  }

  /** `strings.TrimSuffix(s, ".")`: removes exactly one trailing dot, if there is one. */
  function TrimDot(s: string): (r: string)
    ensures HasDotSuffix(s) ==> r + "." == s
    ensures !HasDotSuffix(s) ==> r == s
  {
    if HasDotSuffix(s) then s[..|s| - 1] else s
  }

  /** `if !strings.HasSuffix(n, ".") { n += "." }` */
  function Fqdn(s: string): (r: string)
    ensures HasDotSuffix(r)
    ensures HasDotSuffix(s) ==> r == s
    ensures !HasDotSuffix(s) ==> r == s + "."
  {
    if HasDotSuffix(s) then s else s + "."
  }

  /** Appending the dot is idempotent, and it undoes TrimDot and is undone by it. */
  lemma FqdnInverse(s: string)
    ensures Fqdn(Fqdn(s)) == Fqdn(s)
    ensures !HasDotSuffix(s) ==> TrimDot(Fqdn(s)) == s
  {
  }

  /** `strings.IndexRune(s, c)`: the first index of `c`, or -1. */
  function IndexRune(s: string, c: char): (i: int)
    ensures -1 <= i < |s|
    ensures i == -1 <==> c !in s
    ensures 0 <= i ==> s[i] == c && c !in s[..i]
  {
    if |s| == 0 then -1
    else if s[0] == c then 0
    else
      var j := IndexRune(s[1..], c);
      assert s[1..][..if j < 0 then 0 else j] == s[1..1 + (if j < 0 then 0 else j)];
      if j < 0 then -1 else j + 1
  }

  /** The first occurrence of `c` in `a + [c] + b` is at `|a|` when `a` has none. */
  lemma IndexRuneAfter(a: string, c: char, b: string)
    requires c !in a
    ensures IndexRune(a + [c] + b, c) == |a|
  {
    var s := a + [c] + b;
    var i := IndexRune(s, c);
    assert s[|a|] == c;
    assert forall k :: 0 <= k < |a| ==> s[k] == a[k];
  }

  /** `strings.Join(parts, string(sep))` */
  function Join(parts: seq<string>, sep: char): (s: string)
  {
    if |parts| == 0 then ""
    else if |parts| == 1 then parts[0]
    else parts[0] + [sep] + Join(parts[1..], sep)
  }

  /** No part contains the separator. */
  predicate SepFree(parts: seq<string>, sep: char) {
    forall k :: 0 <= k < |parts| ==> sep !in parts[k]
  }

  /**
   * `strings.Split(s, string(sep))`: cuts at EVERY occurrence of `sep`, so the empty
   * string gives one empty field and two adjacent separators give an empty field
   * between them.
   */
  function Split(s: string, sep: char): (parts: seq<string>)
    ensures |parts| >= 1
    decreases |s|
  {
    var i := IndexRune(s, sep);
    if i < 0 then [s] else [s[..i]] + Split(s[i + 1..], sep)
  }

  /** The fields contain no separator. */
  lemma {:induction false} SplitSepFree(s: string, sep: char)
    ensures SepFree(Split(s, sep), sep)
    decreases |s|
  {
    if sep in s {
      var head, tail := SplitUnfold(s, sep);
      SplitSepFree(tail, sep);
      SepFreeCons(head, Split(tail, sep), sep);
    } else {
      assert Split(s, sep) == [s];
    }
  }

  lemma SepFreeCons(head: string, rest: seq<string>, sep: char)
    requires sep !in head && SepFree(rest, sep)
    ensures SepFree([head] + rest, sep)
  {
    var parts := [head] + rest;
    forall k | 0 <= k < |parts| ensures sep !in parts[k] {
      if k > 0 {
        assert parts[k] == rest[k - 1];
      }
    }
  }

  /** Joining the fields again gives back `s`. */
  lemma {:induction false} JoinSplit(s: string, sep: char)
    ensures Join(Split(s, sep), sep) == s
    decreases |s|
  {
    var i := IndexRune(s, sep);
    if i >= 0 {
      var head, tail := SplitUnfold(s, sep);
      JoinSplit(tail, sep);
      JoinCons(head, Split(tail, sep), sep);
    } else {
      assert Split(s, sep) == [s];
    }
  }

  /** One step of `Split`: the text before the first separator, then the rest. */
  lemma SplitUnfold(s: string, sep: char) returns (head: string, tail: string)
    requires sep in s
    ensures s == head + [sep] + tail && |tail| < |s| && sep !in head
    ensures Split(s, sep) == [head] + Split(tail, sep)
  {
    var i := IndexRune(s, sep);
    head, tail := s[..i], s[i + 1..];
    assert s == head + [s[i]] + tail;
  }

  lemma JoinCons(head: string, rest: seq<string>, sep: char)
    requires |rest| >= 1
    ensures Join([head] + rest, sep) == head + [sep] + Join(rest, sep)
  {
    assert ([head] + rest)[1..] == rest;
  }

  /** A non-empty sequence is its initial part followed by its last element. */
  lemma SplitLast<T>(s: seq<T>)
    requires |s| >= 1
    ensures s == s[..|s| - 1] + [s[|s| - 1]]
  {
  }

  /** Splitting a join of separator-free fields gives the fields back. */
  lemma {:induction false} SplitJoin(parts: seq<string>, sep: char)
    requires |parts| >= 1 && SepFree(parts, sep)
    ensures Split(Join(parts, sep), sep) == parts
    decreases |parts|
  {
    if |parts| == 1 {
      assert IndexRune(parts[0], sep) == -1;
    } else {
      var rest := parts[1..];
      assert parts == [parts[0]] + rest;
      JoinCons(parts[0], rest, sep);
      assert sep !in parts[0] && SepFree(rest, sep) by {
        assert forall k :: 0 <= k < |rest| ==> rest[k] == parts[k + 1];
      }
      SplitCons(parts[0], sep, Join(rest, sep));
      SplitJoin(rest, sep);
    }
  }

  /** A separator-free first field is split off on its own. */
  lemma SplitCons(head: string, sep: char, rest: string)
    requires sep !in head
    ensures Split(head + [sep] + rest, sep) == [head] + Split(rest, sep)
  {
    var s := head + [sep] + rest;
    IndexRuneAfter(head, sep, rest);
    assert s[..|head|] == head;
    assert s[|head| + 1..] == rest;
  }

  /** A string that ends with the separator splits into fields the last of which is empty. */
  lemma {:induction false} SplitTrailingSep(s: string, sep: char)
    requires |s| > 0 && s[|s| - 1] == sep
    ensures var parts := Split(s, sep); parts[|parts| - 1] == ""
    decreases |s|
  {
    var head, tail := SplitUnfold(s, sep);
    var rest := Split(tail, sep);
    LastOfCons(head, rest);
    if tail != [] {
      assert tail[|tail| - 1] == s[|s| - 1];
      SplitTrailingSep(tail, sep);
    } else {
      assert IndexRune(tail, sep) == -1;
    }
  }

  lemma LastOfCons<T>(x: T, xs: seq<T>)
    requires |xs| >= 1
    ensures ([x] + xs)[|xs|] == xs[|xs| - 1]
  {
  }

  /** Splitting `a + sep + b` splits the two halves independently. */
  lemma SplitAppend(a: string, sep: char, b: string)
    ensures Split(a + [sep] + b, sep) == Split(a, sep) + Split(b, sep)
  {
    var pa, pb := Split(a, sep), Split(b, sep);
    assert Join(pa + pb, sep) == a + [sep] + b by {
      JoinSplit(a, sep);
      JoinSplit(b, sep);
      JoinAppend(pa, pb, sep);
    }
    SplitSepFree(a, sep);
    SplitSepFree(b, sep);
    SepFreeAppend(pa, pb, sep);
    SplitJoin(pa + pb, sep);
  }

  lemma SepFreeAppend(pa: seq<string>, pb: seq<string>, sep: char)
    requires SepFree(pa, sep) && SepFree(pb, sep)
    ensures SepFree(pa + pb, sep)
  {
    assert forall k :: |pa| <= k < |pa + pb| ==> (pa + pb)[k] == pb[k - |pa|];
  }

  lemma {:induction false} JoinAppend(pa: seq<string>, pb: seq<string>, sep: char)
    requires |pa| >= 1 && |pb| >= 1
    ensures Join(pa + pb, sep) == Join(pa, sep) + [sep] + Join(pb, sep)
    decreases |pa|
  {
    if |pa| == 1 {
      assert (pa + pb)[1..] == pb;
    } else {
      JoinAppend(pa[1..], pb, sep);
      assert (pa + pb)[1..] == pa[1..] + pb;
    }
  }
}
