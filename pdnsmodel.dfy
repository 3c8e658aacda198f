/** The two tables of the PowerDNS generic SQL schema, as the resolver reads them. */
module PdnsModel {
  import opened Wrappers
  import opened Strconv

  /** A zone. `kind` is the `type` column (NATIVE, MASTER, SLAVE). */
  datatype Domain = Domain(
    id: nat,
    name: string,
    master: Option<string>,
    lastCheck: Option<int>,
    kind: string,
    notifiedSerial: Option<int>,
    account: Option<string>)

  /** One stored resource record; `rrtype` is the `type` column, a mnemonic such as "MX". */
  datatype Record = Record(
    id: nat,
    domainId: nat,
    name: string,
    rrtype: string,
    content: string,
    ttl: uint32,
    prio: int,
    changeDate: int,
    disabled: bool)

  /** The value a `Record` variable has before gorm fills it: only the name is set. */
  function BlankRecord(name: string): (r: Record)
    ensures r.id == 0 && r.content == "" && r.name == name
  {
    Record(0, 0, name, "", "", 0, 0, 0, false)
  }
}
