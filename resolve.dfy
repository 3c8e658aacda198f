/**
 * `ResolveCNAMEs`: following a CNAME chain one lookup at a time. Each lookup asks for the
 * first record of the current name whose type is one of `ResolveTypes`; a CNAME record
 * moves the search to its target, anything else ends the chain.
 *
 * The source loop has no bound and no cycle check. The model counts lookups: `fuel` is the
 * number it may make, and running out is the error `CnameDepthExceeded`.
 */
module Resolve {
  import opened Wrappers
  import opened Strings
  import opened Errors
  import opened PdnsModel
  import opened Repository

  /** The types the chain lookup asks for; the third is spelled "AAA", so AAAA rows never match. */
  const ResolveTypes: seq<string> := ["CNAME", "A", "AAA"]

  /** Whether a lookup result is a record at all: gorm left the variable untouched otherwise. */
  predicate Found(rec: Record) {
    rec.id != 0 && rec.content != ""
  }

  /** What one lookup of the chain decides. */
  datatype Step = Stop | Last(rec: Record) | Follow(rec: Record, next: string)

  /** A step found by a lookup of `name`: a selected row, followed exactly when it is a CNAME. */
  predicate SoundStep(db: Backend, name: string, s: Step) {
    !s.Stop? ==>
      && s.rec in db.records && Found(s.rec) && FieldMatches(name, s.rec.name)
      && s.rec.rrtype in ResolveTypes && (s.rec.rrtype == "CNAME" <==> s.Follow?)
      && (s.Follow? ==> s.next == TrimDot(s.rec.content))
  }

  /** One lookup of the loop: no record ends the chain, a CNAME continues at its target without the final dot. */
  function StepAt(db: Backend, name: string): Result<Step, DbError> {
    match FindFirst(db, name, ResolveTypes)
    case Failure(e) => Failure(e)
    case Success(rec) =>
      if !Found(rec) then Success(Stop)
      else if rec.rrtype == "CNAME" then Success(Follow(rec, TrimDot(rec.content)))
      else Success(Last(rec))
  }

  /** A lookup, as a value: the chain lemmas below hold for any lookup, and `Lookups(db)` is the store's. */
  type Lookup = string -> Result<Step, DbError>

  function Lookups(db: Backend): Lookup {
    name => StepAt(db, name)
  }

  /** Every step a lookup returns is sound for `db`. */
  ghost predicate SoundLookup(db: Backend, look: Lookup) {
    forall name :: look(name).Success? ==> SoundStep(db, name, look(name).value)
  }

  /** A step fails exactly on a faulty lookup, with its error; otherwise it is sound. */
  lemma StepAtSpec(db: Backend, name: string)
    ensures FirstWhere(name, ResolveTypes) in db.faults <==> StepAt(db, name).Failure?
    ensures StepAt(db, name).Failure? ==> StepAt(db, name).error == db.faults[FirstWhere(name, ResolveTypes)]
    ensures StepAt(db, name).Success? ==> SoundStep(db, name, StepAt(db, name).value)
  {
    FindFirstSpec(db, name, ResolveTypes);
  }

  lemma LookupsSound(db: Backend)
    ensures SoundLookup(db, Lookups(db))
  {
    forall name | Lookups(db)(name).Success? ensures SoundStep(db, name, Lookups(db)(name).value) {
      StepAtSpec(db, name);
    }
  }

  /** The chain starting at `name` (already without its final dot), with at most `fuel` lookups. */
  function Chain(look: Lookup, name: string, fuel: nat): (r: Result<seq<Record>, Error>)
    decreases fuel
  {
    if fuel == 0 then Failure(CnameDepthExceeded)
    else match look(name)
      case Failure(e) => Failure(Repository(e))
      case Success(Stop) => Success([])
      case Success(Last(rec)) => Success([rec])
      case Success(Follow(rec, next)) => Then([rec], Chain(look, next, fuel - 1))
  }

  /** Records collected so far, followed by the rest of the chain; an error discards them. */
  function Then(found: seq<Record>, rest: Result<seq<Record>, Error>): Result<seq<Record>, Error> {
    match rest
    case Failure(e) => Failure(e)
    case Success(rs) => Success(found + rs)
  }

  lemma ThenAssociative(a: seq<Record>, b: seq<Record>, rest: Result<seq<Record>, Error>)
    ensures Then(a, Then(b, rest)) == Then(a + b, rest)
  {
    if rest.Success? {
      assert a + (b + rest.value) == (a + b) + rest.value;
    }
  }

  /** One pass of the loop body of `ResolveCNAMEs`: the lookup and what it decides. */
  method LookupStep(db: Backend, name: string) returns (r: Result<Step, DbError>)
    ensures r == Lookups(db)(name)
  {
    var lookup := FindFirst(db, name, ResolveTypes);
    if lookup.Failure? {
      return Failure(lookup.error);
    }
    var rec := lookup.value;
    if Found(rec) {
      if rec.rrtype == "CNAME" {
        return Success(Follow(rec, TrimDot(rec.content)));
      }
      return Success(Last(rec));
    }
    return Success(Stop);
  }

  lemma ThenEmpty(rest: Result<seq<Record>, Error>)
    ensures Then([], rest) == rest
  {
    if rest.Success? {
      assert [] + rest.value == rest.value;
    }
  }

  /** `ResolveCNAMEs(cname)` with at most `fuel` lookups. */
  method ResolveCNAMEs(db: Backend, cname: string, fuel: nat) returns (r: Result<seq<Record>, Error>)
    ensures r == Chain(Lookups(db), TrimDot(cname), fuel)
  {
    var name := TrimDot(cname);
    var found: seq<Record> := [];
    var left := fuel;
    var resolving := true;
    ThenEmpty(Chain(Lookups(db), name, left));
    while resolving
      invariant resolving ==> Then(found, Chain(Lookups(db), name, left)) == Chain(Lookups(db), TrimDot(cname), fuel)
      invariant !resolving ==> Success(found) == Chain(Lookups(db), TrimDot(cname), fuel)
      decreases left + (if resolving then 1 else 0)
    {
      if left == 0 {
        return Failure(CnameDepthExceeded);
      }
      var step := LookupStep(db, name);
      match step {
        case Failure(e) =>
          return Failure(Repository(e));
        case Success(Follow(rec, next)) =>
          ThenAssociative(found, [rec], Chain(Lookups(db), next, left - 1));
          found := found + [rec];
          name := next;
        case Success(Last(rec)) =>
          found := found + [rec];
          resolving := false;
        case Success(Stop) =>
          assert found + [] == found;
          resolving := false;
      }
      left := left - 1;
    }
    return Success(found);
  }

  /** A chain record is a row of the store that the chain lookup selects. */
  predicate ChainRecord(db: Backend, rec: Record) {
    rec in db.records && Found(rec) && rec.rrtype in ResolveTypes
  }

  /**
   * A well-formed chain from `name`: each record is a chain record named by the current
   * name, and only a CNAME is followed, at its target without the final dot.
   */
  predicate Linked(db: Backend, name: string, rs: seq<Record>)
    decreases |rs|
  {
    rs == [] ||
    (&& ChainRecord(db, rs[0]) && FieldMatches(name, rs[0].name)
     && (|rs| > 1 ==> rs[0].rrtype == "CNAME" && Linked(db, TrimDot(rs[0].content), rs[1..])))
  }

  /** A complete chain is linked, and never holds more records than lookups. */
  lemma {:induction false} ChainLinked(db: Backend, look: Lookup, name: string, fuel: nat)
    requires SoundLookup(db, look) && Chain(look, name, fuel).Success?
    ensures Linked(db, name, Chain(look, name, fuel).value)
    ensures |Chain(look, name, fuel).value| <= fuel
    decreases fuel
  {
    assert SoundStep(db, name, look(name).value);
    match look(name).value
    case Stop =>
    case Last(rec) =>
    case Follow(rec, next) =>
      var rest := Chain(look, next, fuel - 1).value;
      assert Chain(look, name, fuel).value == [rec] + rest;
      ChainLinked(db, look, next, fuel - 1);
      assert ([rec] + rest)[1..] == rest;
  }

  /**
   * What linked means position by position: every record is a found row of one of the three
   * types, all but the last are CNAMEs, the first is named `name` and each next one is named
   * by the target of the one before.
   */
  lemma {:induction false} LinkedShape(db: Backend, name: string, rs: seq<Record>)
    requires Linked(db, name, rs)
    ensures forall i :: 0 <= i < |rs| ==> ChainRecord(db, rs[i])
    ensures forall i :: 0 <= i < |rs| - 1 ==> rs[i].rrtype == "CNAME"
    ensures |rs| > 0 ==> FieldMatches(name, rs[0].name)
    ensures forall i :: 0 <= i < |rs| - 1 ==> FieldMatches(TrimDot(rs[i].content), rs[i + 1].name)
    decreases |rs|
  {
    if |rs| > 1 {
      LinkedShape(db, TrimDot(rs[0].content), rs[1..]);
      assert forall i :: 1 <= i < |rs| ==> rs[i] == rs[1..][i - 1];
    }
  }

  /** The shape of every chain the store yields. */
  lemma ChainShape(db: Backend, name: string, fuel: nat)
    requires Chain(Lookups(db), name, fuel).Success?
    ensures var rs := Chain(Lookups(db), name, fuel).value;
      && |rs| <= fuel
      && (forall i :: 0 <= i < |rs| ==> ChainRecord(db, rs[i]))
      && (forall i :: 0 <= i < |rs| - 1 ==> rs[i].rrtype == "CNAME")
      && (|rs| > 0 ==> FieldMatches(name, rs[0].name))
      && (forall i :: 0 <= i < |rs| - 1 ==> FieldMatches(TrimDot(rs[i].content), rs[i + 1].name))
  {
    LookupsSound(db);
    ChainLinked(db, Lookups(db), name, fuel);
    LinkedShape(db, name, Chain(Lookups(db), name, fuel).value);
  }

  /** A chain ends at the first record that is not a CNAME, or where a lookup finds nothing. */
  lemma ChainEnds(db: Backend, name: string, fuel: nat)
    requires fuel > 0 && FindFirst(db, name, ResolveTypes).Success?
    ensures var rec := FindFirst(db, name, ResolveTypes).value;
      && (!Found(rec) ==> Chain(Lookups(db), name, fuel) == Success([]))
      && (Found(rec) && rec.rrtype != "CNAME" ==> Chain(Lookups(db), name, fuel) == Success([rec]))
      && (Found(rec) && rec.rrtype == "CNAME" ==>
            Chain(Lookups(db), name, fuel) == Then([rec], Chain(Lookups(db), TrimDot(rec.content), fuel - 1)))
  {
  }

  /** An AAAA row is never part of a chain: the type list asks for "AAA". */
  lemma ChainNeverYieldsAAAA(db: Backend, name: string, fuel: nat)
    requires Chain(Lookups(db), name, fuel).Success?
    ensures forall rec :: rec in Chain(Lookups(db), name, fuel).value ==> rec.rrtype != "AAAA"
  {
    ChainShape(db, name, fuel);
    var rs := Chain(Lookups(db), name, fuel).value;
    forall rec | rec in rs ensures rec.rrtype != "AAAA" {
      var i :| 0 <= i < |rs| && rs[i] == rec;
      assert rec.rrtype in ResolveTypes;
    }
  }

  /** More lookups never change a chain that completed. */
  lemma {:induction false} ChainFuelMonotone(look: Lookup, name: string, fuel: nat, more: nat)
    requires Chain(look, name, fuel).Success?
    ensures Chain(look, name, fuel + more) == Chain(look, name, fuel)
    decreases fuel
  {
    if look(name).value.Follow? {
      ChainFuelMonotone(look, look(name).value.next, fuel - 1, more);
    }
  }

  /** A repository error at the first lookup is the chain's error. */
  lemma ChainRepositoryError(db: Backend, name: string, fuel: nat)
    requires fuel > 0 && FirstWhere(name, ResolveTypes) in db.faults
    ensures Chain(Lookups(db), name, fuel) == Failure(Repository(db.faults[FirstWhere(name, ResolveTypes)]))
  {
  }

  /**
   * A CNAME that points back at its own name never ends: whatever the bound, the chain runs
   * out of lookups (the source would loop forever).
   */
  lemma {:induction false} SelfLoopExhausts(look: Lookup, name: string, rec: Record, fuel: nat)
    requires look(name) == Success(Follow(rec, name))
    ensures Chain(look, name, fuel) == Failure(CnameDepthExceeded)
    decreases fuel
  {
    if fuel > 0 {
      SelfLoopExhausts(look, name, rec, fuel - 1);
    }
  }

  /** In the store, a self-loop is a CNAME row whose target names its own name. */
  lemma StoreSelfLoop(db: Backend, name: string, rec: Record)
    requires FindFirst(db, name, ResolveTypes) == Success(rec)
    requires Found(rec) && rec.rrtype == "CNAME" && TrimDot(rec.content) == name
    ensures Lookups(db)(name) == Success(Follow(rec, name))
  {
  }
}
