/** The errors a query can end in. */
module Errors {

  /** What the store can report: gorm's `ErrRecordNotFound`, or any other failure. */
  datatype DbError = RecordNotFound | DbFailure(message: string)

  /** Why `ServeDNS` answers with RcodeServerFailure. */
  datatype Error =
    | Repository(cause: DbError)              // a lookup failed
    | CnameDepthExceeded                      // the CNAME chain needed more lookups than allowed
    | MalformedMX(content: string)            // MX content is not exactly two fields
    | InvalidMXPreference(field: string)      // the MX preference is not an integer
    | MalformedSRV(content: string, parts: nat) // SRV content is not exactly four fields
    | InvalidSRVPriority(field: string)
    | InvalidSRVWeight(field: string)
    | InvalidSRVPort(field: string)
}
