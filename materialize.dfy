/**
 * The type switch of `ServeDNS`: turning a stored record into an answer record.
 * IP addresses stay text (`net.ParseIP` is not part of this model).
 */
module Answers {
  import opened Wrappers
  import opened Strings
  import opened Strconv
  import opened Errors
  import opened PdnsModel
  import opened SoaText

  /** `dns.RR_Header`; the type is kept as its mnemonic. */
  datatype Header = Header(name: string, rrtype: string, qclass: uint16, ttl: uint32)

  /**
   * The answer records the switch builds. `Blank` stands for the zero-valued record
   * `dns.TypeToRR[typ]()` that the source appends for a type with no case: its header is
   * never assigned, so its name is empty and its header type is 0. The `rrtype` it carries
   * is the model's own note of the row it came from, which `TypeOf` reports; the response
   * does not hold it.
   */
  datatype RR =
    | SOA(hdr: Header, soa: Soa)
    | A(hdr: Header, a: string)
    | AAAA(hdr: Header, aaaa: string)
    | TXT(hdr: Header, txt: seq<string>)
    | NS(hdr: Header, ns: string)
    | PTR(hdr: Header, ptr: string)
    | CNAME(hdr: Header, target: string)
    | MX(hdr: Header, preference: uint16, mx: string)
    | SRV(hdr: Header, priority: uint16, weight: uint16, port: uint16, target: string)
    | Blank(rrtype: string)   // the zero-valued record of a type the switch has no case for

  /** The types the switch has a case for. */
  const Handled: set<string> := {"SOA", "A", "AAAA", "TXT", "NS", "PTR", "CNAME", "MX", "SRV"}

  /** The type of an answer record. */
  function TypeOf(rr: RR): string {
    if rr.Blank? then rr.rrtype else rr.hdr.rrtype
  }

  /** The header every handled case sets: the owner name gets a final dot if it lacks one. */
  function HeaderFor(v: Record, qclass: uint16): (h: Header)
    ensures HasDotSuffix(h.name)
    ensures HasDotSuffix(v.name) ==> h.name == v.name
    ensures !HasDotSuffix(v.name) ==> h.name == v.name + "."
    ensures h.rrtype == v.rrtype && h.qclass == qclass && h.ttl == v.ttl
  {
    Header(Fqdn(v.name), v.rrtype, qclass, v.ttl)
  }

  /** The MX case: exactly two space-separated fields, an integer preference, the host verbatim. */
  function MaterializeMX(hdr: Header, content: string): (r: Result<RR, Error>)
    ensures |Split(content, ' ')| != 2 ==> r == Failure(MalformedMX(content))
    ensures |Split(content, ' ')| == 2 && Atoi(Split(content, ' ')[0]).None? ==>
              r == Failure(InvalidMXPreference(Split(content, ' ')[0]))
    ensures |Split(content, ' ')| == 2 && Atoi(Split(content, ' ')[0]).Some? ==>
              r == Success(MX(hdr, Uint16(Atoi(Split(content, ' ')[0]).value), Split(content, ' ')[1]))
  {
    var parts := Split(content, ' ');
    if |parts| == 2 then
      var preference, host := parts[0], parts[1];
      match Atoi(preference)
      case Some(pref) => Success(MX(hdr, Uint16(pref), host))
      case None => Failure(InvalidMXPreference(preference))
    else
      Failure(MalformedMX(content))
  }

  /** The SRV case: exactly four fields; priority, weight and port are checked in that order. */
  function MaterializeSRV(hdr: Header, content: string): (r: Result<RR, Error>)
    ensures var parts := Split(content, ' ');
      && (|parts| != 4 ==> r == Failure(MalformedSRV(content, |parts|)))
      && (|parts| == 4 && Atoi(parts[0]).None? ==> r == Failure(InvalidSRVPriority(parts[0])))
      && (|parts| == 4 && Atoi(parts[0]).Some? && Atoi(parts[1]).None? ==>
            r == Failure(InvalidSRVWeight(parts[1])))
      && (|parts| == 4 && Atoi(parts[0]).Some? && Atoi(parts[1]).Some? && Atoi(parts[2]).None? ==>
            r == Failure(InvalidSRVPort(parts[2])))
      && (|parts| == 4 && Atoi(parts[0]).Some? && Atoi(parts[1]).Some? && Atoi(parts[2]).Some? ==>
            r == Success(SRV(hdr, Uint16(Atoi(parts[0]).value), Uint16(Atoi(parts[1]).value),
                             Uint16(Atoi(parts[2]).value), parts[3])))
  {
    var parts := Split(content, ' ');
    if |parts| != 4 then Failure(MalformedSRV(content, |parts|))
    else match Atoi(parts[0])
      case None => Failure(InvalidSRVPriority(parts[0]))
      case Some(priority) =>
        match Atoi(parts[1])
        case None => Failure(InvalidSRVWeight(parts[1]))
        case Some(weight) =>
          match Atoi(parts[2])
          case None => Failure(InvalidSRVPort(parts[2]))
          case Some(port) => Success(SRV(hdr, Uint16(priority), Uint16(weight), Uint16(port), parts[3]))
  }

  /**
   * One iteration of the answer loop of `ServeDNS`. Only MX and SRV content can fail;
   * a malformed SOA is still answered (the `rr = nil` in that case clears a copy local
   * to the case), and a type without a case gives a zero-valued record.
   */
  function Materialize(v: Record, qclass: uint16): (r: Result<RR, Error>)
    ensures r.Failure? ==> v.rrtype == "MX" || v.rrtype == "SRV"
    ensures r.Success? ==> TypeOf(r.value) == v.rrtype
    ensures r.Success? && v.rrtype in Handled ==> !r.value.Blank? && r.value.hdr == HeaderFor(v, qclass)
    ensures v.rrtype !in Handled ==> r == Success(Blank(v.rrtype))
    ensures v.rrtype == "MX" ==> r == MaterializeMX(HeaderFor(v, qclass), v.content)
    ensures v.rrtype == "SRV" ==> r == MaterializeSRV(HeaderFor(v, qclass), v.content)
  {
    var hdr := HeaderFor(v, qclass);
    if v.rrtype == "SOA" then Success(SOA(hdr, ParseSOA(EmptySoa, v.content).1))
    else if v.rrtype == "A" then Success(A(hdr, v.content))
    else if v.rrtype == "AAAA" then Success(AAAA(hdr, v.content))
    else if v.rrtype == "TXT" then Success(TXT(hdr, [v.content]))
    else if v.rrtype == "NS" then Success(NS(hdr, v.content))
    else if v.rrtype == "PTR" then Success(PTR(hdr, Fqdn(v.content)))
    else if v.rrtype == "CNAME" then Success(CNAME(hdr, v.content))
    else if v.rrtype == "MX" then MaterializeMX(hdr, v.content)
    else if v.rrtype == "SRV" then MaterializeSRV(hdr, v.content)
    else Success(Blank(v.rrtype))
  }

  /** The simple cases: content verbatim (NS, CNAME, A, AAAA), one TXT segment, a fully-qualified PTR target, SOA kept. */
  lemma MaterializeSimpleTypes(v: Record, qclass: uint16)
    ensures var h := HeaderFor(v, qclass);
      && (v.rrtype == "NS" ==> Materialize(v, qclass) == Success(NS(h, v.content)))
      && (v.rrtype == "CNAME" ==> Materialize(v, qclass) == Success(CNAME(h, v.content)))
      && (v.rrtype == "TXT" ==> Materialize(v, qclass) == Success(TXT(h, [v.content])))
      && (v.rrtype == "PTR" ==> Materialize(v, qclass) == Success(PTR(h, Fqdn(v.content))))
      && (v.rrtype == "A" ==> Materialize(v, qclass) == Success(A(h, v.content)))
      && (v.rrtype == "AAAA" ==> Materialize(v, qclass) == Success(AAAA(h, v.content)))
      && (v.rrtype == "SOA" ==> Materialize(v, qclass) == Success(SOA(h, ParseSOA(EmptySoa, v.content).1)))
  {
  }

  /** MX content `"<pref> <host>"` reads back as that preference and host; `Prio` plays no part. */
  lemma MXRoundTrip(v: Record, qclass: uint16, pref: uint16, host: string)
    requires v.rrtype == "MX" && ' ' !in host
    requires v.content == Decimal(pref) + " " + host
    ensures Materialize(v, qclass) == Success(MX(HeaderFor(v, qclass), pref, host))
  {
    DecimalHasNoSeparators(pref);
    AtoiDecimal(pref);
    assert v.content == Join([Decimal(pref), host], ' ');
    SplitJoin([Decimal(pref), host], ' ');
  }

  /** A single-field MX content is a format error, whatever the `Prio` column holds. */
  lemma MXWithoutPreferenceFails(v: Record, qclass: uint16)
    requires v.rrtype == "MX" && ' ' !in v.content
    ensures Materialize(v, qclass) == Failure(MalformedMX(v.content))
  {
    SplitJoin([v.content], ' ');
  }

  /**
   * The preference is Go's `uint16(…)` of what `strconv.Atoi` reads: a value past 65535
   * wraps (`"65546 mx."` gives 10), and leading zeros, a `+` or a `-` are accepted.
   */
  lemma MXPreferenceConversions(hdr: Header, n: nat, host: string)
    requires ' ' !in host
    ensures MaterializeMX(hdr, Decimal(n) + " " + host) == Success(MX(hdr, Uint16(n), host))
    ensures MaterializeMX(hdr, "0" + Decimal(n) + " " + host) == Success(MX(hdr, Uint16(n), host))
    ensures MaterializeMX(hdr, "+" + Decimal(n) + " " + host) == Success(MX(hdr, Uint16(n), host))
    ensures MaterializeMX(hdr, "-" + Decimal(n) + " " + host) == Success(MX(hdr, Uint16(-(n as int)), host))
  {
    var d := Decimal(n);
    DecimalHasNoSeparators(n);
    AtoiDecimal(n);
    AtoiLeadingZero(n);
    MXFromFields(hdr, d + " " + host, d, host, n);
    MXFromFields(hdr, "0" + d + " " + host, "0" + d, host, n);
    MXFromFields(hdr, "+" + d + " " + host, "+" + d, host, n);
    MXFromFields(hdr, "-" + d + " " + host, "-" + d, host, -(n as int));
  }

  lemma MXFromFields(hdr: Header, content: string, pref: string, host: string, n: int)
    requires content == pref + " " + host
    requires ' ' !in pref && ' ' !in host && Atoi(pref) == Some(n)
    ensures MaterializeMX(hdr, content) == Success(MX(hdr, Uint16(n), host))
  {
    assert content == Join([pref, host], ' ');
    SplitJoin([pref, host], ' ');
  }

  /** SRV content `"<priority> <weight> <port> <target>"` reads back as those four values. */
  lemma SRVRoundTrip(v: Record, qclass: uint16, priority: uint16, weight: uint16, port: uint16, target: string)
    requires v.rrtype == "SRV" && ' ' !in target
    requires v.content == Join([Decimal(priority), Decimal(weight), Decimal(port), target], ' ')
    ensures Materialize(v, qclass) == Success(SRV(HeaderFor(v, qclass), priority, weight, port, target))
  {
    var fields := [Decimal(priority), Decimal(weight), Decimal(port), target];
    SRVFieldsParse(priority, weight, port, target);
    SRVFromFields(HeaderFor(v, qclass), v.content, fields, priority, weight, port);
  }

  lemma SRVFieldsParse(priority: uint16, weight: uint16, port: uint16, target: string)
    requires ' ' !in target
    ensures var fields := [Decimal(priority), Decimal(weight), Decimal(port), target];
      && Split(Join(fields, ' '), ' ') == fields
      && Atoi(fields[0]) == Some(priority as int)
      && Atoi(fields[1]) == Some(weight as int)
      && Atoi(fields[2]) == Some(port as int)
  {
    SRVFieldsSplit(priority, weight, port, target);
    AtoiDecimal(priority);
    AtoiDecimal(weight);
    AtoiDecimal(port);
  }

  lemma SRVFieldsSplit(priority: uint16, weight: uint16, port: uint16, target: string)
    requires ' ' !in target
    ensures var fields := [Decimal(priority), Decimal(weight), Decimal(port), target];
      Split(Join(fields, ' '), ' ') == fields
  {
    DecimalHasNoSeparators(priority);
    DecimalHasNoSeparators(weight);
    DecimalHasNoSeparators(port);
    SplitJoinFour(Decimal(priority), Decimal(weight), Decimal(port), target);
  }

  lemma SplitJoinFour(a: string, b: string, c: string, d: string)
    requires ' ' !in a && ' ' !in b && ' ' !in c && ' ' !in d
    ensures Split(Join([a, b, c, d], ' '), ' ') == [a, b, c, d]
  {
    SplitJoin([a, b, c, d], ' ');
  }

  lemma SRVFromFields(hdr: Header, content: string, fields: seq<string>, priority: uint16, weight: uint16, port: uint16)
    requires Split(content, ' ') == fields && |fields| == 4
    requires Atoi(fields[0]) == Some(priority as int)
    requires Atoi(fields[1]) == Some(weight as int)
    requires Atoi(fields[2]) == Some(port as int)
    ensures MaterializeSRV(hdr, content) == Success(SRV(hdr, priority, weight, port, fields[3]))
  {
  }

  /** Materializing every record in turn; the first MX/SRV format error ends the query. */
  function MaterializeAll(records: seq<Record>, qclass: uint16): (r: Result<seq<RR>, Error>)
    ensures r.Success? ==> (|r.value| == |records| &&
      forall i :: 0 <= i < |records| ==> Materialize(records[i], qclass) == Success(r.value[i]))
  {
    if records == [] then Success([])
    else
      match MaterializeAll(records[..|records| - 1], qclass)
      case Failure(e) => Failure(e)
      case Success(rrs) =>
        match Materialize(records[|records| - 1], qclass)
        case Failure(e) => Failure(e)
        case Success(rr) => Success(rrs + [rr])
  }

  /** The records before `i` all materialize, record `i` fails with `e`. */
  ghost predicate FirstFailure(records: seq<Record>, qclass: uint16, i: int, e: Error) {
    0 <= i < |records| && Materialize(records[i], qclass) == Failure(e) &&
    forall j :: 0 <= j < i ==> Materialize(records[j], qclass).Success?
  }

  /** A failed answer loop reports the error of the first record that failed. */
  lemma {:induction false} MaterializeAllFirstError(records: seq<Record>, qclass: uint16)
    requires MaterializeAll(records, qclass).Failure?
    ensures exists i :: FirstFailure(records, qclass, i, MaterializeAll(records, qclass).error)
  {
    var init := records[..|records| - 1];
    var e := MaterializeAll(records, qclass).error;
    if MaterializeAll(init, qclass).Failure? {
      MaterializeAllFirstError(init, qclass);
      var i :| FirstFailure(init, qclass, i, e);
      FirstFailureExtends(init, records, qclass, i, e);
    } else {
      FirstFailureAtEnd(records, qclass, e);
    }
  }

  lemma FirstFailureExtends(init: seq<Record>, records: seq<Record>, qclass: uint16, i: int, e: Error)
    requires init <= records && FirstFailure(init, qclass, i, e)
    ensures FirstFailure(records, qclass, i, e)
  {
    assert forall j :: 0 <= j <= i ==> records[j] == init[j];
  }

  lemma FirstFailureAtEnd(records: seq<Record>, qclass: uint16, e: Error)
    requires records != [] && MaterializeAll(records[..|records| - 1], qclass).Success?
    requires MaterializeAll(records, qclass) == Failure(e)
    ensures FirstFailure(records, qclass, |records| - 1, e)
  {
    var init := records[..|records| - 1];
    assert forall j :: 0 <= j < |init| ==> records[j] == init[j];
  }

  /** The answer loop completes exactly when no record has malformed MX/SRV content. */
  lemma MaterializeAllSucceedsIff(records: seq<Record>, qclass: uint16)
    ensures MaterializeAll(records, qclass).Success? <==>
            forall i :: 0 <= i < |records| ==> Materialize(records[i], qclass).Success?
  {
    if MaterializeAll(records, qclass).Failure? {
      MaterializeAllFirstError(records, qclass);
    }
  }
}
