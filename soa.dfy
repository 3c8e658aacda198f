/** `ParseSOA`: SOA record text, seven space-separated fields, into the fields of a `dns.SOA`. */
module SoaText {
  import opened Wrappers
  import opened Strings
  import opened Strconv

  /** The data part of a `dns.SOA`. */
  datatype Soa = Soa(
    ns: string,
    mbox: string,
    serial: uint32,
    refresh: uint32,
    retry: uint32,
    expire: uint32,
    minttl: uint32)

  /** A freshly allocated `dns.SOA`: every field at its zero value. */
  const EmptySoa := Soa("", "", 0, 0, 0, 0, 0)

  /** The five numeric fields, in text order (fields 2..6). */
  function Timers(soa: Soa): (t: seq<uint32>)
    ensures |t| == 5
  {
    [soa.serial, soa.refresh, soa.retry, soa.expire, soa.minttl]
  }

  /** How many of fields 2..6, counted from field 2, parse as integers before the first that does not. */
  function NumericPrefix(f: seq<string>): (n: nat)
    requires |f| >= 7
    ensures n <= 5
    ensures forall k :: 2 <= k < 2 + n ==> Atoi(f[k]).Some?
    ensures n < 5 ==> Atoi(f[2 + n]).None?
  {
    if Atoi(f[2]).None? then 0
    else if Atoi(f[3]).None? then 1
    else if Atoi(f[4]).None? then 2
    else if Atoi(f[5]).None? then 3
    else if Atoi(f[6]).None? then 4
    else 5
  }

  /**
   * `ParseSOA(rr, line)`, with the record passed in and handed back: it reports success
   * iff the line has at least seven fields and fields 2..6 are all integers. On the way
   * it overwrites `Ns` and `Mbox` as soon as there are seven fields and each timer as soon
   * as its field parses, so a line that fails part-way leaves the earlier writes behind.
   */
  function ParseSOA(rr: Soa, line: string): (res: (bool, Soa))
  {
    var f := Split(line, ' ');
    if |f| < 7 then (false, rr) else ParseFields(rr, f)
  }

  /** The part of `ParseSOA` after the field count check: the field-by-field writes. */
  function ParseFields(rr: Soa, f: seq<string>): (res: (bool, Soa))
    requires |f| >= 7
  {
    var rr := rr.(ns := f[0], mbox := f[1]);
    if Atoi(f[2]).None? then (false, rr)
    else
      var rr := rr.(serial := Uint32(Atoi(f[2]).value));
      if Atoi(f[3]).None? then (false, rr)
      else
        var rr := rr.(refresh := Uint32(Atoi(f[3]).value));
        if Atoi(f[4]).None? then (false, rr)
        else
          var rr := rr.(retry := Uint32(Atoi(f[4]).value));
          if Atoi(f[5]).None? then (false, rr)
          else
            var rr := rr.(expire := Uint32(Atoi(f[5]).value));
            if Atoi(f[6]).None? then (false, rr)
            else
              (true, rr.(minttl := Uint32(Atoi(f[6]).value)))
  }

  /**
   * What `ParseSOA` promises: success iff there are at least seven fields and fields
   * 2..6 all parse; with fewer than seven fields `rr` is untouched; otherwise `Ns` and
   * `Mbox` are fields 0 and 1, and each timer holds its field mod 2^32 if that field and
   * all before it parsed, and its old value if not.
   */
  lemma ParseSOAContract(rr: Soa, line: string)
    ensures var f, res := Split(line, ' '), ParseSOA(rr, line);
      && (res.0 <==> |f| >= 7 && forall k :: 2 <= k < 7 ==> Atoi(f[k]).Some?)
      && (|f| < 7 ==> res.1 == rr)
      && (|f| >= 7 ==>
            && res.1.ns == f[0] && res.1.mbox == f[1]
            && forall j :: 0 <= j < 5 ==>
                 Timers(res.1)[j] == if j < NumericPrefix(f) then Uint32(Atoi(f[2 + j]).value) else Timers(rr)[j])
  {
    var f := Split(line, ' ');
    if |f| >= 7 {
      ParseFieldsContract(rr, f);
    }
  }

  lemma ParseFieldsContract(rr: Soa, f: seq<string>)
    requires |f| >= 7
    ensures var res := ParseFields(rr, f);
      && (res.0 <==> forall k :: 2 <= k < 7 ==> Atoi(f[k]).Some?)
      && res.1.ns == f[0] && res.1.mbox == f[1]
      && forall j :: 0 <= j < 5 ==>
           Timers(res.1)[j] == if j < NumericPrefix(f) then Uint32(Atoi(f[2 + j]).value) else Timers(rr)[j]
  {
    var n := NumericPrefix(f);
    assert n == 5 <==> forall k :: 2 <= k < 7 ==> Atoi(f[k]).Some?;
    ParseFieldsTimers(rr, f);
  }

  /** Timer `j` holds its field if fields 2..2+j all parsed, and keeps its old value if not. */
  lemma ParseFieldsTimers(rr: Soa, f: seq<string>)
    requires |f| >= 7
    ensures var t, n := Timers(ParseFields(rr, f).1), NumericPrefix(f);
      forall j :: 0 <= j < 5 ==> t[j] == if j < n then Uint32(Atoi(f[2 + j]).value) else Timers(rr)[j]
  {
    var n := NumericPrefix(f);
    var t := Timers(ParseFields(rr, f).1);
    if n == 0 {
      assert t == Timers(rr);
    } else if n == 1 {
      assert t[1..] == Timers(rr)[1..];
    } else if n == 2 {
      assert t[2..] == Timers(rr)[2..];
    } else if n == 3 {
      assert t[3..] == Timers(rr)[3..];
    } else if n == 4 {
      assert t[4] == Timers(rr)[4];
    }
  }

  /** The text form of an SOA record, as PowerDNS stores it in the `content` column. */
  function Format(soa: Soa): (line: string)
  {
    Join([soa.ns, soa.mbox, Decimal(soa.serial), Decimal(soa.refresh), Decimal(soa.retry),
          Decimal(soa.expire), Decimal(soa.minttl)], ' ')
  }

  /** Parsing the text of an SOA record gives that record back, whatever `rr` held before. */
  lemma ParseFormat(rr: Soa, soa: Soa)
    requires ' ' !in soa.ns && ' ' !in soa.mbox
    ensures ParseSOA(rr, Format(soa)) == (true, soa)
  {
    var f := [soa.ns, soa.mbox, Decimal(soa.serial), Decimal(soa.refresh), Decimal(soa.retry),
              Decimal(soa.expire), Decimal(soa.minttl)];
    DecimalHasNoSeparators(soa.serial);
    DecimalHasNoSeparators(soa.refresh);
    DecimalHasNoSeparators(soa.retry);
    DecimalHasNoSeparators(soa.expire);
    DecimalHasNoSeparators(soa.minttl);
    SplitJoin(f, ' ');
    AtoiDecimal(soa.serial);
    AtoiDecimal(soa.refresh);
    AtoiDecimal(soa.retry);
    AtoiDecimal(soa.expire);
    AtoiDecimal(soa.minttl);
  }

  /** Fields after the seventh are ignored. */
  lemma ParseIgnoresExtraFields(rr: Soa, line: string, extra: string)
    requires |Split(line, ' ')| >= 7
    ensures ParseSOA(rr, line + " " + extra) == ParseSOA(rr, line)
  {
    var f, g := Split(line, ' '), Split(line + " " + extra, ' ');
    assert g == f + Split(extra, ' ') by {
      SplitAppend(line, ' ', extra);
    }
    ParseFieldsReadsSeven(rr, f, g);
  }

  lemma ParseFieldsReadsSeven(rr: Soa, f: seq<string>, g: seq<string>)
    requires |f| >= 7 && |g| >= 7
    requires forall k :: 0 <= k < 7 ==> f[k] == g[k]
    ensures ParseFields(rr, f) == ParseFields(rr, g)
  {
    assert f[0] == g[0] && f[1] == g[1] && f[2] == g[2] && f[3] == g[3];
    assert f[4] == g[4] && f[5] == g[5] && f[6] == g[6];
  }

  /** With one field missing nothing is written; with a bad serial only the two names are. */
  lemma ParsePartialWrites(rr: Soa, ns: string, mbox: string, rest: seq<string>)
    requires ' ' !in ns && ' ' !in mbox && |rest| == 5 && SepFree(rest, ' ')
    requires Atoi(rest[0]).None?
    ensures ParseSOA(rr, Join([ns, mbox] + rest, ' ')) == (false, rr.(ns := ns, mbox := mbox))
    ensures ParseSOA(rr, Join([ns, mbox] + rest[1..], ' ')) == (false, rr)
  {
    SplitJoin([ns, mbox] + rest, ' ');
    SplitJoin([ns, mbox] + rest[1..], ' ');
  }
}
