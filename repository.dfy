/**
 * The record store behind the plugin, reduced to the four lookups the resolver makes.
 * Rows come back in table order. Which lookups fail is part of the store: `faults`
 * maps a lookup to the error it returns, so a connection failure or gorm's
 * `ErrRecordNotFound` can be placed on any lookup.
 */
module Repository {
  import opened Wrappers
  import opened Errors
  import opened PdnsModel

  /** A lookup the resolver sends, with the conditions of its WHERE clause. */
  datatype Query =
    | RecordsWhere(name: string, rrtype: string)      // Where(Record{Name, Type, Disabled: false}).Find(&records)
    | FirstWhere(name: string, types: seq<string>)    // Where(&Record{Name}).Where("type" IN types).Find(&record)
    | DomainNamed(name: string)                        // Limit(1).Find(&domain, "name = ?", name)
    | WildcardsOf(domainId: nat, rrtype: string)       // Find(&records, "domain_id = ? and (? = 'ANY' or type = ?) and name like '%*%'")

  datatype Backend = Backend(records: seq<Record>, domains: seq<Domain>, faults: map<Query, DbError>)

  /**
   * A struct-style gorm condition on a string column. gorm leaves out fields that hold
   * their zero value, so an empty wanted value places no condition at all.
   */
  predicate FieldMatches(want: string, have: string) {
    want == "" || have == want
  }

  /** Whether the record query `q` selects `r`. (`Disabled: false` is a zero value and is dropped.) */
  predicate Selects(q: Query, r: Record) {
    match q
    case RecordsWhere(name, rrtype) => FieldMatches(name, r.name) && FieldMatches(rrtype, r.rrtype)
    case FirstWhere(name, types) => FieldMatches(name, r.name) && r.rrtype in types
    case DomainNamed(_) => false
    case WildcardsOf(domainId, rrtype) =>
      r.domainId == domainId && (rrtype == "ANY" || r.rrtype == rrtype) && '*' in r.name
  }

  /** The rows of `rs` that `q` selects, in table order. */
  function Rows(rs: seq<Record>, q: Query): seq<Record> {
    if rs == [] then []
    else (if Selects(q, rs[0]) then [rs[0]] else []) + Rows(rs[1..], q)
  }

  /** A filter: exactly the selected rows, none added. */
  lemma {:induction false} RowsSpec(rs: seq<Record>, q: Query)
    ensures |Rows(rs, q)| <= |rs|
    ensures forall r :: r in Rows(rs, q) <==> r in rs && Selects(q, r)
  {
    if rs != [] {
      RowsSpec(rs[1..], q);
      assert rs == [rs[0]] + rs[1..];
    }
  }

  /** The first row of `rs` that `q` selects. */
  function FirstRow(rs: seq<Record>, q: Query): Option<Record> {
    if rs == [] then None
    else if Selects(q, rs[0]) then Some(rs[0])
    else FirstRow(rs[1..], q)
  }

  /** `FirstRow` finds nothing exactly when no row is selected, and otherwise the earliest one. */
  lemma {:induction false} FirstRowSpec(rs: seq<Record>, q: Query)
    ensures FirstRow(rs, q).None? <==> forall k :: 0 <= k < |rs| ==> !Selects(q, rs[k])
    ensures FirstRow(rs, q).Some? ==> exists i :: (0 <= i < |rs| && rs[i] == FirstRow(rs, q).value && Selects(q, rs[i]) &&
                                                   forall k :: 0 <= k < i ==> !Selects(q, rs[k]))
  {
    if rs != [] && !Selects(q, rs[0]) {
      FirstRowSpec(rs[1..], q);
      assert forall k :: 1 <= k < |rs| ==> rs[k] == rs[1..][k - 1];
      if FirstRow(rs[1..], q).Some? {
        var i :| 0 <= i < |rs[1..]| && rs[1..][i] == FirstRow(rs, q).value && Selects(q, rs[1..][i]) &&
                 forall k :: 0 <= k < i ==> !Selects(q, rs[1..][k]);
        assert rs[i + 1] == FirstRow(rs, q).value;
      }
    }
  }

  /** The first domain of `ds` with the given name. */
  function FirstDomain(ds: seq<Domain>, name: string): Option<Domain> {
    if ds == [] then None
    else if ds[0].name == name then Some(ds[0])
    else FirstDomain(ds[1..], name)
  }

  /** `FirstDomain` finds nothing exactly when no domain has the name, and otherwise the earliest one that has. */
  lemma {:induction false} FirstDomainSpec(ds: seq<Domain>, name: string)
    ensures FirstDomain(ds, name).None? <==> forall k :: 0 <= k < |ds| ==> ds[k].name != name
    ensures FirstDomain(ds, name).Some? ==>
      (FirstDomain(ds, name).value.name == name &&
       exists i :: 0 <= i < |ds| && ds[i] == FirstDomain(ds, name).value && forall k :: 0 <= k < i ==> ds[k].name != name)
  {
    if ds != [] && ds[0].name != name {
      FirstDomainSpec(ds[1..], name);
      assert forall k :: 1 <= k < |ds| ==> ds[k] == ds[1..][k - 1];
      if FirstDomain(ds[1..], name).Some? {
        var i :| 0 <= i < |ds[1..]| && ds[1..][i] == FirstDomain(ds, name).value &&
                 forall k :: 0 <= k < i ==> ds[1..][k].name != name;
        assert ds[i + 1] == FirstDomain(ds, name).value;
      }
    } else if ds != [] {
      assert ds[0] == FirstDomain(ds, name).value;
    }
  }

  /** `pdb.Where(Record{Name: name, Type: rrtype}).Find(&records)` */
  function FindRecords(db: Backend, name: string, rrtype: string): Result<seq<Record>, DbError> {
    var q := RecordsWhere(name, rrtype);
    if q in db.faults then Failure(db.faults[q]) else Success(Rows(db.records, q))
  }

  /** A failing lookup reports its fault; otherwise the rows with that name and type, an empty wanted value matching any. */
  lemma FindRecordsSpec(db: Backend, name: string, rrtype: string)
    ensures RecordsWhere(name, rrtype) in db.faults ==>
      FindRecords(db, name, rrtype) == Failure(db.faults[RecordsWhere(name, rrtype)])
    ensures RecordsWhere(name, rrtype) !in db.faults ==>
      FindRecords(db, name, rrtype).Success? &&
      forall x :: x in FindRecords(db, name, rrtype).value <==>
        x in db.records && FieldMatches(name, x.name) && FieldMatches(rrtype, x.rrtype)
  {
    RowsSpec(db.records, RecordsWhere(name, rrtype));
  }

  /**
   * `pdb.Where(&Record{Name: name}).Where(map{"type": types}).Find(&record)`: the first
   * selected row, or the record as it was before the call (only `Name` set) when no row matches.
   */
  function FindFirst(db: Backend, name: string, types: seq<string>): Result<Record, DbError> {
    var q := FirstWhere(name, types);
    if q in db.faults then Failure(db.faults[q])
    else match FirstRow(db.records, q)
      case Some(rec) => Success(rec)
      case None => Success(BlankRecord(name))
  }

  lemma FindFirstSpec(db: Backend, name: string, types: seq<string>)
    ensures FirstWhere(name, types) in db.faults ==> FindFirst(db, name, types) == Failure(db.faults[FirstWhere(name, types)])
    ensures FirstWhere(name, types) !in db.faults ==>
      && FindFirst(db, name, types).Success?
      && var r := FindFirst(db, name, types).value;
         ((r in db.records && FieldMatches(name, r.name) && r.rrtype in types) ||
          (r == BlankRecord(name) &&
           forall k :: 0 <= k < |db.records| ==> !Selects(FirstWhere(name, types), db.records[k])))
  {
    FirstRowSpec(db.records, FirstWhere(name, types));
  }

  /** `pdb.Limit(1).Find(&domain, "name = ?", name)`; a name with no domain row is not found. */
  function FindDomain(db: Backend, name: string): Result<Domain, DbError> {
    var q := DomainNamed(name);
    if q in db.faults then Failure(db.faults[q])
    else match FirstDomain(db.domains, name)
      case Some(d) => Success(d)
      case None => Failure(RecordNotFound)
  }

  lemma FindDomainSpec(db: Backend, name: string)
    ensures DomainNamed(name) in db.faults ==> FindDomain(db, name) == Failure(db.faults[DomainNamed(name)])
    ensures DomainNamed(name) !in db.faults ==>
      var r := FindDomain(db, name);
      && (r.Success? ==>
            (r.value.name == name &&
             exists i :: 0 <= i < |db.domains| && db.domains[i] == r.value &&
               forall k :: 0 <= k < i ==> db.domains[k].name != name))
      && (r.Failure? <==> forall k :: 0 <= k < |db.domains| ==> db.domains[k].name != name)
      && (r.Failure? ==> r.error == RecordNotFound)
  {
    FirstDomainSpec(db.domains, name);
  }

  /** The records of zone `domainId` whose name contains `*`, of type `rrtype` unless it is "ANY". */
  function WildcardRecords(db: Backend, domainId: nat, rrtype: string): Result<seq<Record>, DbError> {
    var q := WildcardsOf(domainId, rrtype);
    if q in db.faults then Failure(db.faults[q]) else Success(Rows(db.records, q))
  }

  lemma WildcardRecordsSpec(db: Backend, domainId: nat, rrtype: string)
    ensures WildcardsOf(domainId, rrtype) in db.faults ==>
      WildcardRecords(db, domainId, rrtype) == Failure(db.faults[WildcardsOf(domainId, rrtype)])
    ensures WildcardsOf(domainId, rrtype) !in db.faults ==>
      && WildcardRecords(db, domainId, rrtype).Success?
      && forall x :: x in WildcardRecords(db, domainId, rrtype).value <==>
           x in db.records && x.domainId == domainId && (rrtype == "ANY" || x.rrtype == rrtype) && '*' in x.name
  {
    RowsSpec(db.records, WildcardsOf(domainId, rrtype));
  }
}
