/**
 * `SearchWildcard`: walking up from the query name to the first enclosing zone the store
 * knows, then keeping that zone's `*` records whose names match the query label by label.
 * The matched records keep their stored names (`*.example.org`); nothing rewrites them.
 */
module Wildcard {
  import opened Wrappers
  import opened Strings
  import opened Errors
  import opened PdnsModel
  import opened Repository
  import opened Labels

  /** The zones the walk asks for, in order: the name after each leading label, while one remains. */
  function Candidates(name: string): seq<string>
    decreases |name|
  {
    var i := IndexRune(name, '.');
    if i > 0 then [name[i + 1..]] + Candidates(name[i + 1..]) else []
  }

  /** The walk from `name`: the first candidate with a domain row; a lookup error other than not-found stops it. */
  function ZoneFrom(db: Backend, name: string): Result<Option<Domain>, DbError>
    decreases |name|
  {
    var i := IndexRune(name, '.');
    if i <= 0 then Success(None)
    else
      var zone := name[i + 1..];
      match FindDomain(db, zone)
      case Success(d) => Success(Some(d))
      case Failure(RecordNotFound) => ZoneFrom(db, zone)
      case Failure(e) => Failure(e)
  }

  /** The records `keep` accepts, in order. */
  function Filter(keep: Record -> bool, rs: seq<Record>): seq<Record> {
    if rs == [] then []
    else
      var last := rs[|rs| - 1];
      Filter(keep, rs[..|rs| - 1]) + (if keep(last) then [last] else [])
  }

  /** The test of the filter loop: the record's name matches `qname` label by label. */
  function MatchesName(qname: string): Record -> bool {
    (r: Record) => WildcardMatches(qname, r.name)
  }

  /** The filter loop: the records whose names match `qname`, in the order the store gave them. */
  function MatchingWildcards(qname: string, rs: seq<Record>): seq<Record> {
    Filter(MatchesName(qname), rs)
  }

  /** The query name without its final character (the final dot of a fully-qualified name). */
  function WithoutLastChar(qname: string): string
    requires |qname| > 0
  {
    qname[..|qname| - 1]
  }

  /** What `SearchWildcard(qname, qtype)` returns; `qtype` is the mnemonic, "ANY" taking every type. */
  function Wildcards(db: Backend, qname: string, qtype: string): Result<seq<Record>, Error>
    requires |qname| > 0
  {
    var q := WithoutLastChar(qname);
    match ZoneFrom(db, q)
    case Failure(e) => Failure(Repository(e))
    case Success(None) => Success([])
    case Success(Some(d)) =>
      match WildcardRecords(db, d.id, qtype)
      case Failure(RecordNotFound) => Success([])
      case Failure(e) => Failure(Repository(e))
      case Success(rs) => Success(MatchingWildcards(q, rs))
  }

  /** `SearchWildcard(qname, qtype)`. */
  method SearchWildcard(db: Backend, qname: string, qtype: string) returns (r: Result<seq<Record>, Error>)
    requires |qname| > 0
    ensures r == Wildcards(db, qname, qtype)
  {
    var qnameNoDot := qname[..|qname| - 1];
    var name := qnameNoDot;
    var zone: Option<Domain> := None;
    while zone.None?
      invariant zone.None? ==> ZoneFrom(db, name) == ZoneFrom(db, qnameNoDot)
      invariant zone.Some? ==> ZoneFrom(db, qnameNoDot) == Success(zone)
      decreases |name|
    {
      var i := IndexRune(name, '.');
      if i <= 0 {
        return Success([]);
      }
      name := name[i + 1..];
      var lookup := FindDomain(db, name);
      match lookup {
        case Success(d) =>
          zone := Some(d);
        case Failure(e) =>
          if e != RecordNotFound {
            return Failure(Repository(e));
          }
      }
    }
    var rows := WildcardRecords(db, zone.value.id, qtype);
    if rows.Failure? {
      if rows.error == RecordNotFound {
        return Success([]);
      }
      return Failure(Repository(rows.error));
    }
    var records := rows.value;
    var matched: seq<Record> := [];
    for k := 0 to |records|
      invariant matched == MatchingWildcards(qnameNoDot, records[..k])
    {
      assert records[..k + 1][..k] == records[..k];
      var m := WildcardMatch(qnameNoDot, records[k].name);
      if m {
        matched := matched + [records[k]];
      }
    }
    assert records[..|records|] == records;
    return Success(matched);
  }

  /** A filter keeps exactly the accepted records. */
  lemma {:induction false} FilterMembers(keep: Record -> bool, rs: seq<Record>)
    ensures |Filter(keep, rs)| <= |rs|
    ensures forall r :: r in Filter(keep, rs) <==> r in rs && keep(r)
    decreases |rs|
  {
    if rs != [] {
      var init := rs[..|rs| - 1];
      FilterMembers(keep, init);
      assert rs == init + [rs[|rs| - 1]];
    }
  }

  /** A filter works record by record, so it keeps the order it was given. */
  lemma {:induction false} FilterAppend(keep: Record -> bool, a: seq<Record>, b: seq<Record>)
    ensures Filter(keep, a + b) == Filter(keep, a) + Filter(keep, b)
    decreases |b|
  {
    if b == [] {
      assert a + b == a;
    } else {
      var init := b[..|b| - 1];
      assert (a + b)[..|a + b| - 1] == a + init;
      FilterAppend(keep, a, init);
    }
  }

  /** The wildcard filter keeps exactly the records whose names match. */
  lemma MatchingWildcardsMembers(qname: string, rs: seq<Record>)
    ensures |MatchingWildcards(qname, rs)| <= |rs|
    ensures forall r :: r in MatchingWildcards(qname, rs) <==> r in rs && WildcardMatches(qname, r.name)
  {
    FilterMembers(MatchesName(qname), rs);
  }

  /** The wildcard filter keeps the store's order. */
  lemma MatchingWildcardsAppend(qname: string, a: seq<Record>, b: seq<Record>)
    ensures MatchingWildcards(qname, a + b) == MatchingWildcards(qname, a) + MatchingWildcards(qname, b)
  {
    FilterAppend(MatchesName(qname), a, b);
  }

  /** `zone` is what follows some dot of `name`. */
  predicate Encloses(name: string, zone: string) {
    |zone| < |name| && name == name[..|name| - |zone| - 1] + "." + zone
  }

  lemma EnclosesTrans(name: string, i: nat, zone: string, z: string)
    requires i < |name| && name == name[..i] + "." + zone && Encloses(zone, z)
    ensures Encloses(name, z)
  {
    var p := zone[..|zone| - |z| - 1];
    assert name == (name[..i] + "." + p) + "." + z;
    assert name[..|name| - |z| - 1] == name[..i] + "." + p;
  }

  /** One step of the walk: the first candidate is the name after the leading label. */
  lemma CandidatesUnfold(name: string) returns (zone: string)
    requires IndexRune(name, '.') > 0
    ensures Candidates(name) == [zone] + Candidates(zone)
    ensures |zone| < |name| && name == name[..IndexRune(name, '.')] + "." + zone
  {
    var i := IndexRune(name, '.');
    zone := name[i + 1..];
    assert name == name[..i] + [name[i]] + zone;
  }

  /** Each candidate is what follows a dot of `name`. */
  lemma {:induction false} CandidatesAreSuffixes(name: string)
    ensures forall j :: 0 <= j < |Candidates(name)| ==> Encloses(name, Candidates(name)[j])
    decreases |name|
  {
    var i := IndexRune(name, '.');
    if i > 0 {
      var zone := CandidatesUnfold(name);
      CandidatesAreSuffixes(zone);
      AllEnclosedCons(name, i, zone, Candidates(zone));
    } else {
      assert Candidates(name) == [];
    }
  }

  lemma AllEnclosedCons(name: string, i: nat, zone: string, cz: seq<string>)
    requires i < |name| && |zone| < |name| && name == name[..i] + "." + zone
    requires forall j :: 0 <= j < |cz| ==> Encloses(zone, cz[j])
    ensures forall j :: 0 <= j < |[zone] + cz| ==> Encloses(name, ([zone] + cz)[j])
  {
    var c := [zone] + cz;
    forall j | 0 <= j < |c| ensures Encloses(name, c[j]) {
      if j == 0 {
        assert name[..|name| - |zone| - 1] == name[..i];
      } else {
        assert c[j] == cz[j - 1];
        EnclosesTrans(name, i, zone, cz[j - 1]);
      }
    }
  }

  /** Each candidate is shorter than the one before it. */
  lemma {:induction false} CandidatesShrink(name: string)
    ensures forall j :: 0 < j < |Candidates(name)| ==> |Candidates(name)[j]| < |Candidates(name)[j - 1]|
    decreases |name|
  {
    if IndexRune(name, '.') > 0 {
      var zone := CandidatesUnfold(name);
      CandidatesShrink(zone);
      CandidatesAreSuffixes(zone);
      ShrinkingCons(zone, Candidates(zone));
    } else {
      assert Candidates(name) == [];
    }
  }

  lemma ShrinkingCons(zone: string, cz: seq<string>)
    requires forall j :: 0 <= j < |cz| ==> Encloses(zone, cz[j])
    requires forall j :: 0 < j < |cz| ==> |cz[j]| < |cz[j - 1]|
    ensures forall j :: 0 < j < |[zone] + cz| ==> |([zone] + cz)[j]| < |([zone] + cz)[j - 1]|
  {
    var c := [zone] + cz;
    forall j | 0 < j < |c| ensures |c[j]| < |c[j - 1]| {
      assert c[j] == cz[j - 1];
      if j > 1 {
        assert c[j - 1] == cz[j - 2];
      } else {
        assert Encloses(zone, cz[0]);
      }
    }
  }

  /** A name without a dot, or one that starts with a dot, has no zone to try. */
  lemma NoCandidates(db: Backend, name: string)
    requires '.' !in name || (|name| > 0 && name[0] == '.')
    ensures Candidates(name) == [] && ZoneFrom(db, name) == Success(None)
  {
  }

  /**
   * For a name made of non-empty labels, the walk tries every enclosing name, from the
   * longest: the labels after the first, then after the second, up to the last label alone.
   */
  lemma {:induction false} CandidatesOfLabels(labels: seq<string>)
    requires |labels| >= 1 && SepFree(labels, '.')
    requires forall k :: 0 <= k < |labels| ==> labels[k] != ""
    ensures var c := Candidates(Join(labels, '.'));
      |c| == |labels| - 1 && forall j :: 0 <= j < |c| ==> c[j] == Join(labels[j + 1..], '.')
    decreases |labels|
  {
    if |labels| == 1 {
      assert IndexRune(Join(labels, '.'), '.') == -1;
    } else {
      var tail := labels[1..];
      var rest := Join(tail, '.');
      assert Join(labels, '.') == labels[0] + "." + rest;
      CandidatesAfterLabel(labels[0], rest);
      CandidatesOfLabels(tail);
      JoinedSuffixesCons(labels, Candidates(rest));
    }
  }

  /** The walk from `leftmost.rest` first tries `rest`, then goes on from there. */
  lemma CandidatesAfterLabel(leftmost: string, rest: string)
    requires leftmost != "" && '.' !in leftmost
    ensures Candidates(leftmost + "." + rest) == [rest] + Candidates(rest)
  {
    var name := leftmost + "." + rest;
    IndexRuneAfter(leftmost, '.', rest);
    assert name[|leftmost| + 1..] == rest;
  }

  lemma JoinedSuffixesCons(labels: seq<string>, cz: seq<string>)
    requires |labels| >= 2 && |cz| == |labels| - 2
    requires forall j :: 0 <= j < |cz| ==> cz[j] == Join(labels[1..][j + 1..], '.')
    ensures var c := [Join(labels[1..], '.')] + cz;
      |c| == |labels| - 1 && forall j :: 0 <= j < |c| ==> c[j] == Join(labels[j + 1..], '.')
  {
    var tail := labels[1..];
    var c := [Join(tail, '.')] + cz;
    forall j | 0 <= j < |c| ensures c[j] == Join(labels[j + 1..], '.') {
      if j > 0 {
        assert c[j] == cz[j - 1];
        assert tail[j..] == labels[j + 1..];
      }
    }
  }

  /** The walk over an explicit list of candidate zones. */
  function FirstZone(db: Backend, zones: seq<string>): Result<Option<Domain>, DbError> {
    if zones == [] then Success(None)
    else match FindDomain(db, zones[0])
      case Success(d) => Success(Some(d))
      case Failure(RecordNotFound) => FirstZone(db, zones[1..])
      case Failure(e) => Failure(e)
  }

  /** The walk from a name is the walk over its candidates. */
  lemma {:induction false} ZoneFromCandidates(db: Backend, name: string)
    ensures ZoneFrom(db, name) == FirstZone(db, Candidates(name))
    decreases |name|
  {
    var i := IndexRune(name, '.');
    if i > 0 {
      var zone := name[i + 1..];
      ZoneFromCandidates(db, zone);
      assert ([zone] + Candidates(zone))[1..] == Candidates(zone);
    }
  }

  /** No candidate before `j` has a domain row. */
  predicate MissingBefore(db: Backend, zones: seq<string>, j: int)
    requires 0 <= j <= |zones|
  {
    forall k :: 0 <= k < j ==> FindDomain(db, zones[k]) == Failure(RecordNotFound)
  }

  /**
   * The walk stops at the first candidate with a domain row, every earlier one being not
   * found; it finds nothing when every candidate is not found; when it fails, the one whose
   * lookup failed is the first candidate that was not simply missing.
   */
  lemma {:induction false} FirstZoneIsFirstFound(db: Backend, zones: seq<string>)
    ensures FirstZone(db, zones) == Success(None) <==> MissingBefore(db, zones, |zones|)
    ensures FirstZone(db, zones).Success? && FirstZone(db, zones).value.Some? ==>
      exists j :: 0 <= j < |zones| && FindDomain(db, zones[j]) == Success(FirstZone(db, zones).value.value) &&
                  MissingBefore(db, zones, j)
    ensures FirstZone(db, zones).Failure? ==>
      FirstZone(db, zones).error != RecordNotFound &&
      exists j :: 0 <= j < |zones| && FindDomain(db, zones[j]) == Failure(FirstZone(db, zones).error) &&
                  MissingBefore(db, zones, j)
    decreases |zones|
  {
    if zones != [] && FindDomain(db, zones[0]) == Failure(RecordNotFound) {
      var tail := zones[1..];
      FirstZoneIsFirstFound(db, tail);
      assert forall k :: 1 <= k < |zones| ==> zones[k] == tail[k - 1];
      var r := FirstZone(db, zones);
      assert r == FirstZone(db, tail);
      if r.Success? && r.value.Some? {
        var j :| 0 <= j < |tail| && FindDomain(db, tail[j]) == Success(r.value.value) && MissingBefore(db, tail, j);
        assert FindDomain(db, zones[j + 1]) == Success(r.value.value) && MissingBefore(db, zones, j + 1);
      } else if r.Failure? {
        var j :| 0 <= j < |tail| && FindDomain(db, tail[j]) == Failure(r.error) && MissingBefore(db, tail, j);
        assert FindDomain(db, zones[j + 1]) == Failure(r.error) && MissingBefore(db, zones, j + 1);
      }
    }
  }

  /**
   * Every record the search returns is a `*` row of the zone the walk found, of the asked
   * type unless it was ANY, whose name matches the query name label by label.
   */
  lemma WildcardsSound(db: Backend, qname: string, qtype: string)
    requires |qname| > 0 && Wildcards(db, qname, qtype).Success?
    ensures forall r :: r in Wildcards(db, qname, qtype).value ==>
      && ZoneFrom(db, WithoutLastChar(qname)).Success?
      && ZoneFrom(db, WithoutLastChar(qname)).value.Some?
      && r in db.records && r.domainId == ZoneFrom(db, WithoutLastChar(qname)).value.value.id
      && (qtype == "ANY" || r.rrtype == qtype) && '*' in r.name
      && WildcardMatches(WithoutLastChar(qname), r.name)
  {
    var q := WithoutLastChar(qname);
    if ZoneFrom(db, q).Success? && ZoneFrom(db, q).value.Some? {
      var d := ZoneFrom(db, q).value.value;
      WildcardRecordsSpec(db, d.id, qtype);
      if WildcardRecords(db, d.id, qtype).Success? {
        MatchingWildcardsMembers(q, WildcardRecords(db, d.id, qtype).value);
      }
    }
  }

  /** Conversely, once a zone is found, every matching `*` row of it is returned. */
  lemma WildcardsComplete(db: Backend, qname: string, qtype: string, d: Domain, r: Record)
    requires |qname| > 0 && ZoneFrom(db, WithoutLastChar(qname)) == Success(Some(d))
    requires WildcardsOf(d.id, qtype) !in db.faults
    requires r in db.records && r.domainId == d.id && (qtype == "ANY" || r.rrtype == qtype) && '*' in r.name
    requires WildcardMatches(WithoutLastChar(qname), r.name)
    ensures Wildcards(db, qname, qtype).Success? && r in Wildcards(db, qname, qtype).value
  {
    var q := WithoutLastChar(qname);
    WildcardRecordsSpec(db, d.id, qtype);
    var rs := WildcardRecords(db, d.id, qtype).value;
    assert r in rs;
    MatchingWildcardsMembers(q, rs);
    assert Wildcards(db, qname, qtype) == Success(MatchingWildcards(q, rs));
  }

  /** The walk passes over not-found zones, so the error it stops with is never not-found. */
  lemma {:induction false} ZoneFromError(db: Backend, name: string)
    ensures ZoneFrom(db, name).Failure? ==> ZoneFrom(db, name).error != RecordNotFound
    decreases |name|
  {
    var i := IndexRune(name, '.');
    if i > 0 && FindDomain(db, name[i + 1..]) == Failure(RecordNotFound) {
      ZoneFromError(db, name[i + 1..]);
    }
  }

  /**
   * The error paths of the search: a zone-walk error, or a fetch error other than not-found,
   * is returned as a store error; no zone, or a not-found fetch, gives no records.
   */
  lemma WildcardsErrors(db: Backend, qname: string, qtype: string)
    requires |qname| > 0
    ensures var zone := ZoneFrom(db, WithoutLastChar(qname));
      && (zone.Failure? ==> Wildcards(db, qname, qtype) == Failure(Repository(zone.error)))
      && (zone == Success(None) ==> Wildcards(db, qname, qtype) == Success([]))
      && (zone.Success? && zone.value.Some? ==>
            var fetch := WildcardRecords(db, zone.value.value.id, qtype);
            && (fetch == Failure(RecordNotFound) ==> Wildcards(db, qname, qtype) == Success([]))
            && (fetch.Failure? && fetch.error != RecordNotFound ==>
                  Wildcards(db, qname, qtype) == Failure(Repository(fetch.error))))
  {
  }

  /** The root and single-label names have no enclosing zone to search. */
  lemma NoWildcardsWithoutParent(db: Backend, qname: string, qtype: string)
    requires |qname| > 0 && '.' !in WithoutLastChar(qname)
    ensures Wildcards(db, qname, qtype) == Success([])
  {
    NoCandidates(db, WithoutLastChar(qname));
  }
}
