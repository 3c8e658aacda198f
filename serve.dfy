/**
 * `ServeDNS`: the direct lookup, the CNAME and wildcard fall-backs, the SOA lookup for a
 * missing name, and the answer loop. The response writer, the next plugin and the context
 * are not modelled; the outcome says which way the query left.
 */
module Serve {
  import opened Wrappers
  import opened Strings
  import opened Strconv
  import opened Errors
  import opened PdnsModel
  import opened Repository
  import opened SoaText
  import opened Answers
  import opened Resolve
  import opened Wildcard

  /** How a query leaves the plugin. */
  datatype Outcome =
    | Answered(answer: seq<RR>)   // `w.WriteMsg(a)` with these answer records
    | Delegated(extra: seq<RR>)   // no answer: `plugin.NextOrFailure`; the extra section built so far is dropped
    | ServerFailure(err: Error)   // `dns.RcodeServerFailure` with an error
    | Panicked                    // `records[0]` on an empty result

  /** The name the direct lookup uses: the query name without its final dot, the root kept as ".". */
  function QueryName(qname: string): (n: string)
    requires |qname| > 0
    ensures qname == "." ==> n == "."
    ensures qname != "." ==> n + [qname[|qname| - 1]] == qname
  {
    if qname == "." then qname else qname[..|qname| - 1]
  }

  /** The type the direct lookup asks for: ANY asks for no type at all. */
  function TypeFilter(qtype: string): (t: string)
    ensures t == "" <==> qtype == "ANY" || qtype == ""
    ensures t != "" ==> t == qtype
  {
    if qtype == "ANY" then "" else qtype
  }

  /** The SOA record the negative branch puts in the extra section. */
  function SoaExtra(qname: string, qclass: uint16, soa: Soa): RR {
    SOA(Header(qname, "SOA", qclass, 0), soa)
  }

  /**
   * The branch for a direct lookup that reported not-found: look up the SOA rows of the same
   * name; a failed lookup adds nothing, an empty result panics at `records[0]`, a parsable
   * first row adds one SOA record to the extra section. The answer stays empty, so the query
   * goes to the next plugin.
   */
  function NegativeAnswer(db: Backend, qname: string, qclass: uint16): Outcome
    requires |qname| > 0
  {
    match FindRecords(db, QueryName(qname), "SOA")
    case Failure(_) => Delegated([])
    case Success(rows) =>
      if rows == [] then Panicked
      else
        var (ok, soa) := ParseSOA(EmptySoa, rows[0].content);
        if ok then Delegated([SoaExtra(qname, qclass, soa)]) else Delegated([])
  }

  /** The records to answer with: the direct ones; failing those the CNAME chain; failing that the wildcards. */
  function Resolved(db: Backend, qname: string, qtype: string, fuel: nat, direct: seq<Record>): Result<seq<Record>, Error>
    requires |qname| > 0
  {
    if direct != [] then Success(direct)
    else match Chain(Lookups(db), TrimDot(qname), fuel)
      case Failure(e) => Failure(e)
      case Success(chain) =>
        if chain != [] then Success(chain) else Wildcards(db, qname, qtype)
  }

  /**
   * What `ServeDNS` does with query name `qname` (fully qualified), type mnemonic `qtype`
   * and class `qclass`, allowing `fuel` CNAME lookups.
   */
  function Serve(db: Backend, qname: string, qtype: string, qclass: uint16, fuel: nat): Outcome
    requires |qname| > 0
  {
    match FindRecords(db, QueryName(qname), TypeFilter(qtype))
    case Failure(RecordNotFound) => NegativeAnswer(db, qname, qclass)
    case Failure(e) => ServerFailure(Repository(e))
    case Success(direct) =>
      match Resolved(db, qname, qtype, fuel, direct)
      case Failure(e) => ServerFailure(e)
      case Success(records) =>
        match MaterializeAll(records, qclass)
        case Failure(e) => ServerFailure(e)
        case Success(answer) => if answer == [] then Delegated([]) else Answered(answer)
  }

  /** The fall-backs of `ServeDNS`, in order. */
  method Collect(db: Backend, qname: string, qtype: string, fuel: nat, direct: seq<Record>)
    returns (r: Result<seq<Record>, Error>)
    requires |qname| > 0
    ensures r == Resolved(db, qname, qtype, fuel, direct)
  {
    var records := direct;
    if |records| == 0 {
      var chain := ResolveCNAMEs(db, qname, fuel);
      if chain.Failure? {
        return Failure(chain.error);
      }
      records := chain.value;
    }
    if |records| == 0 {
      r := SearchWildcard(db, qname, qtype);
      return;
    }
    return Success(records);
  }

  /** The answer loop of `ServeDNS`. */
  method BuildAnswer(records: seq<Record>, qclass: uint16) returns (r: Result<seq<RR>, Error>)
    ensures r == MaterializeAll(records, qclass)
  {
    var answer: seq<RR> := [];
    for k := 0 to |records|
      invariant MaterializeAll(records[..k], qclass) == Success(answer)
    {
      assert records[..k + 1][..k] == records[..k];
      var rr := Materialize(records[k], qclass);
      if rr.Failure? {
        MaterializeAllKeepsFailure(records, k + 1, qclass);
        return Failure(rr.error);
      }
      answer := answer + [rr.value];
    }
    assert records[..|records|] == records;
    return Success(answer);
  }

  /** Once the answer loop fails at a record, later records cannot change the error. */
  lemma {:induction false} MaterializeAllKeepsFailure(records: seq<Record>, k: nat, qclass: uint16)
    requires k <= |records| && MaterializeAll(records[..k], qclass).Failure?
    ensures MaterializeAll(records, qclass) == MaterializeAll(records[..k], qclass)
    decreases |records| - k
  {
    if k < |records| {
      assert records[..k + 1][..k] == records[..k];
      MaterializeAllKeepsFailure(records, k + 1, qclass);
    } else {
      assert records[..k] == records;
    }
  }

  /** `ServeDNS`. */
  method ServeDNS(db: Backend, qname: string, qtype: string, qclass: uint16, fuel: nat) returns (o: Outcome)
    requires |qname| > 0
    ensures o == Serve(db, qname, qtype, qclass, fuel)
  {
    var name := if qname != "." then qname[..|qname| - 1] else qname;
    var rrtype := if qtype == "ANY" then "" else qtype;
    var direct := FindRecords(db, name, rrtype);
    if direct.Failure? {
      if direct.error != RecordNotFound {
        return ServerFailure(Repository(direct.error));
      }
      var soaRows := FindRecords(db, name, "SOA");
      var extra: seq<RR> := [];
      if soaRows.Success? {
        if |soaRows.value| == 0 {
          return Panicked;
        }
        var parsed := ParseSOA(EmptySoa, soaRows.value[0].content);
        if parsed.0 {
          extra := extra + [SoaExtra(qname, qclass, parsed.1)];
        }
      }
      return Delegated(extra);
    }
    var records := Collect(db, qname, qtype, fuel, direct.value);
    if records.Failure? {
      return ServerFailure(records.error);
    }
    var answer := BuildAnswer(records.value, qclass);
    if answer.Failure? {
      return ServerFailure(answer.error);
    }
    if |answer.value| == 0 {
      return Delegated([]);
    }
    return Answered(answer.value);
  }

  /** A query is answered exactly with the materialized records it resolved to, and only when there are some. */
  lemma AnsweredIsMaterialized(db: Backend, qname: string, qtype: string, qclass: uint16, fuel: nat)
    requires |qname| > 0
    requires FindRecords(db, QueryName(qname), TypeFilter(qtype)).Success?
    requires Resolved(db, qname, qtype, fuel, FindRecords(db, QueryName(qname), TypeFilter(qtype)).value).Success?
    ensures var records := Resolved(db, qname, qtype, fuel, FindRecords(db, QueryName(qname), TypeFilter(qtype)).value).value;
      match Serve(db, qname, qtype, qclass, fuel)
      case Answered(answer) =>
        |records| > 0 && |answer| == |records| &&
        forall i :: 0 <= i < |records| ==> Materialize(records[i], qclass) == Success(answer[i])
      case Delegated(extra) => records == [] && extra == []
      case ServerFailure(e) => MaterializeAll(records, qclass) == Failure(e)
      case Panicked => false
  {
  }

  /** A store error in a fall-back stage (the chain or the wildcard search) is a server failure carrying it. */
  lemma ResolvedFailureFails(db: Backend, qname: string, qtype: string, qclass: uint16, fuel: nat)
    requires |qname| > 0
    requires FindRecords(db, QueryName(qname), TypeFilter(qtype)).Success?
    requires Resolved(db, qname, qtype, fuel, FindRecords(db, QueryName(qname), TypeFilter(qtype)).value).Failure?
    ensures Serve(db, qname, qtype, qclass, fuel) ==
      ServerFailure(Resolved(db, qname, qtype, fuel, FindRecords(db, QueryName(qname), TypeFilter(qtype)).value).error)
  {
  }

  /**
   * With nothing found directly and an empty chain, a failing wildcard search (a zone-walk
   * or fetch error other than not-found) fails the query with that store error.
   */
  lemma WildcardFailureFails(db: Backend, qname: string, qtype: string, qclass: uint16, fuel: nat)
    requires |qname| > 0
    requires FindRecords(db, QueryName(qname), TypeFilter(qtype)) == Success([])
    requires Chain(Lookups(db), TrimDot(qname), fuel) == Success([])
    requires Wildcards(db, qname, qtype).Failure?
    ensures Serve(db, qname, qtype, qclass, fuel) == ServerFailure(Wildcards(db, qname, qtype).error)
    ensures Wildcards(db, qname, qtype).error.Repository? && Wildcards(db, qname, qtype).error.cause != RecordNotFound
  {
    var q := WithoutLastChar(qname);
    WildcardsErrors(db, qname, qtype);
    if ZoneFrom(db, q).Failure? {
      ZoneFromError(db, q);
    }
  }

  /** A query that finds records directly is answered with exactly those; no chain or wildcard is consulted. */
  lemma DirectRecordsWin(db: Backend, qname: string, qtype: string, fuel: nat, direct: seq<Record>)
    requires |qname| > 0 && direct != []
    ensures Resolved(db, qname, qtype, fuel, direct) == Success(direct)
  {
  }

  /** With no direct record the chain is tried, and the wildcards only when the chain is empty too. */
  lemma FallBackOrder(db: Backend, qname: string, qtype: string, fuel: nat)
    requires |qname| > 0
    ensures var chain := Chain(Lookups(db), TrimDot(qname), fuel);
      && (chain.Failure? ==> Resolved(db, qname, qtype, fuel, []) == Failure(chain.error))
      && (chain.Success? && chain.value != [] ==> Resolved(db, qname, qtype, fuel, []) == chain)
      && (chain == Success([]) ==> Resolved(db, qname, qtype, fuel, []) == Wildcards(db, qname, qtype))
  {
  }

  /** The direct lookup asks for the name without its final dot, of the asked type, every type for ANY. */
  lemma DirectLookup(db: Backend, qname: string, qtype: string)
    requires HasDotSuffix(qname) && qname != "." && RecordsWhere(QueryName(qname), TypeFilter(qtype)) !in db.faults
    ensures FindRecords(db, QueryName(qname), TypeFilter(qtype)).Success?
    ensures forall x :: x in FindRecords(db, QueryName(qname), TypeFilter(qtype)).value <==>
      x in db.records && FieldMatches(TrimDot(qname), x.name) && (qtype == "ANY" || FieldMatches(qtype, x.rrtype))
  {
    FindRecordsSpec(db, QueryName(qname), TypeFilter(qtype));
  }

  /** A store failure on the direct lookup is a server failure carrying it. */
  lemma DirectFailureFails(db: Backend, qname: string, qtype: string, qclass: uint16, fuel: nat, message: string)
    requires |qname| > 0
    requires FindRecords(db, QueryName(qname), TypeFilter(qtype)) == Failure(DbFailure(message))
    ensures Serve(db, qname, qtype, qclass, fuel) == ServerFailure(Repository(DbFailure(message)))
  {
  }

  /**
   * A not-found direct lookup never answers: the query goes to the next plugin, with at most
   * one SOA record (for `qname`) in the extra section, unless the SOA lookup came back empty.
   */
  lemma NotFoundDelegates(db: Backend, qname: string, qtype: string, qclass: uint16, fuel: nat)
    requires |qname| > 0
    requires FindRecords(db, QueryName(qname), TypeFilter(qtype)) == Failure(RecordNotFound)
    ensures var soaRows := FindRecords(db, QueryName(qname), "SOA");
      match Serve(db, qname, qtype, qclass, fuel)
      case Delegated(extra) =>
        && |extra| <= 1
        && (extra != [] ==>
              && soaRows.Success? && soaRows.value != []
              && ParseSOA(EmptySoa, soaRows.value[0].content) == (true, extra[0].soa)
              && extra[0] == SoaExtra(qname, qclass, extra[0].soa))
      case Panicked => soaRows == Success([])
      case _ => false
  {
  }

  /** The extra SOA record is present exactly when the first SOA row parses. */
  lemma NotFoundSoaExtra(db: Backend, qname: string, qclass: uint16, row: Record, rows: seq<Record>)
    requires |qname| > 0 && FindRecords(db, QueryName(qname), "SOA") == Success([row] + rows)
    ensures NegativeAnswer(db, qname, qclass) ==
      (if ParseSOA(EmptySoa, row.content).0 then Delegated([SoaExtra(qname, qclass, ParseSOA(EmptySoa, row.content).1)])
       else Delegated([]))
  {
  }

  /**
   * Disabled records are served: the condition `Disabled: false` is a zero value, which the
   * store query leaves out. Any disabled A row of the query name is in the answer to an A query.
   */
  lemma DisabledRecordServed(db: Backend, qname: string, qclass: uint16, fuel: nat, rec: Record)
    requires |qname| > 0 && RecordsWhere(QueryName(qname), "A") !in db.faults
    requires rec in db.records && rec.disabled && rec.rrtype == "A" && rec.name == QueryName(qname)
    ensures Serve(db, qname, "A", qclass, fuel).Answered?
    ensures A(HeaderFor(rec, qclass), rec.content) in Serve(db, qname, "A", qclass, fuel).answer
  {
    assert TypeFilter("A") == "A";
    FindRecordsSpec(db, QueryName(qname), "A");
    var direct := FindRecords(db, QueryName(qname), "A").value;
    assert rec in direct;
    DirectRecordsWin(db, qname, "A", fuel, direct);
    forall k | 0 <= k < |direct| ensures Materialize(direct[k], qclass).Success? {
      assert direct[k] in direct;
    }
    MaterializeAllSucceedsIff(direct, qclass);
    var answer := MaterializeAll(direct, qclass).value;
    var i :| 0 <= i < |direct| && direct[i] == rec;
    MaterializeSimpleTypes(rec, qclass);
    assert answer[i] == A(HeaderFor(rec, qclass), rec.content);
  }
}
