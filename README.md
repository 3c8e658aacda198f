# pdsql resolver core, modelled in Dafny

pdsql is a CoreDNS plugin that answers DNS queries from a PowerDNS generic-SQL
database. It has two tables: `domains` for zones and `records` for resource records.
This project models the resolver in `pdsql.go` and proves properties of the model:

- **`ServeDNS`** does the following, in order:
  1. It looks up the query name without its final dot. The type is the asked type, or no type for ANY.
  2. If the store reports not-found, it looks up the SOA row of the same name. It may put that record in the extra section, and then hands the query to the next plugin.
  3. If nothing was found, it falls back to the CNAME chain, and then to wildcard records.
  4. It turns every row it found into an answer record. This is the type switch. Malformed MX or SRV content gives a server failure.
- **`ResolveCNAMEs`** follows a chain of CNAME rows one lookup at a time. Each lookup asks for a row of type CNAME, A or "AAA". A CNAME row moves the search to its target. Any other row ends the chain.
- **`SearchWildcard`** strips leading labels until it reaches a name with a `domains` row. It then returns that zone's `*` records that match the query name label by label.
- **`WildcardMatch` and `equal`** compare two names label by label. The same number of labels is required. A `*` label matches any label. Other labels are compared ASCII case-insensitively.
- **`ParseSOA`** reads the seven space-separated fields of an SOA row into a `dns.SOA`.

The store is a value, `Repository.Backend`. It holds the rows of both tables in table
order and a map `faults` from lookups to the error each one returns. With that map, a lookup
can return gorm's `ErrRecordNotFound` or any other database failure. `faults` is keyed by the
lookup, so two lookups with the same conditions get the same result. For an SOA query, the direct
lookup and the SOA lookup of the negative branch are the same lookup. After a not-found direct
lookup the SOA lookup is then also not-found, so for an SOA query the model never reaches that
branch's panic or its extra SOA record.

Each loop of the source is a method proved equal to a function:
- `Labels.Equal` and `Labels.WildcardMatch`;
- `Resolve.ResolveCNAMEs`;
- `Wildcard.SearchWildcard`;
- `Serve.BuildAnswer`, the answer loop;
- `Serve.ServeDNS`.

Lemmas about those functions state what the source promises.

Modules and files:

| file | module | contents |
|---|---|---|
| wrappers.dfy | Wrappers | `Option`, `Result` |
| strings.dfy | Strings | `strings.Split`, `Join`, `IndexRune`, `TrimSuffix(".")`, and their laws |
| strconv.dfy | Strconv | `strconv.Atoi`, the `uint16`/`uint32` conversions, decimal text |
| errors.dfy | Errors | store errors and the reasons for a server failure |
| pdnsmodel.dfy | PdnsModel | the `Domain` and `Record` rows |
| repository.dfy | Repository | the four gorm lookups the resolver makes |
| soa.dfy | SoaText | `ParseSOA` |
| materialize.dfy | Answers | the type switch of `ServeDNS` |
| labels.dfy | Labels | `dns.SplitDomainName`, `equal`, `WildcardMatch` |
| resolve.dfy | Resolve | `ResolveCNAMEs` |
| wildcard.dfy | Wildcard | `SearchWildcard` |
| serve.dfy | Serve | `ServeDNS` |

### Where the repository's tests and the code disagree

The model follows the code. In each case below the model proves what the code does:

- **A name two labels below the zone** (`pdsql_test.go:339`):
  - The test expects `*.example.org.` to match `not.exist.example.org.`.
  - The code requires equal label counts, so it does not match.
  - This is proved by `Labels.StarDoesNotMatchTwoLabels` and `Labels.WildcardNeedsSameDepth`.
- **A one-field MX row with a `Prio` column** (`pdsql_test.go:65`, `pdsql_test.go:205-215`):
  - The test expects the preference to come from `Prio`.
  - The code splits `Content` into fields and requires exactly two, so the row is a server failure.
  - This is proved by `Answers.MXWithoutPreferenceFails`.
- **A direct query for the CNAME type** (`pdsql_test.go:99-108`):
  - The test expects the whole chain.
  - The direct lookup finds the CNAME rows of that name, and the chain is only tried when the direct lookup finds nothing.
  - This is proved by `Serve.DirectRecordsWin`.
- **Wildcard queries** (`pdsql_test.go:146-180`):
  - The tests ask for `NOT.Exists.Example.ORG.` and expect an answer built from the `*.example.org` rows.
  - The query name is two labels below `example.org`, and `*.example.org` matches only names one label below it. This is proved by `Labels.StarDoesNotMatchTwoLabels` and `Labels.WildcardNeedsSameDepth`.
  - Names are compared exactly (see `Repository.Selects` under "## Left out"), so the zone walk finds no `domains` row for `Exists.Example.ORG` or `Example.ORG`. A walk that finds no zone returns no records, as `Wildcard.FirstZoneIsFirstFound` and `Wildcard.WildcardsErrors` state.
  - The code therefore does not answer these queries: with no resolved row the query goes to the next plugin, as `Serve.AnsweredIsMaterialized` states.
  - For a name one label below the zone, the rows returned are stored rows, as `Wildcard.WildcardsSound` states. So their owner name stays `*.example.org.` and is not rewritten to the query name.
- **Chain lookups for AAAA** (`pdsql_test.go:122-132`):
  - The test expects AAAA rows to be reached through a chain.
  - The chain lookup asks for the type "AAA" (`pdsql.go:171`), so AAAA rows are never part of a chain.
  - This is proved by `Resolve.ChainNeverYieldsAAAA`.
- **Disabled rows**:
  - The direct lookup sets `Disabled: false`. gorm drops zero values from a struct condition, so this places no condition, and disabled rows are served.
  - This is proved by `Serve.DisabledRecordServed`.
- **The negative branch** (`pdsql.go:47-59`):
  - It puts its SOA record in the extra section, but the answer section stays empty. The query therefore always goes on to the next plugin, and that SOA record is dropped.
  - The SOA lookup uses the query name itself, not its zone.
  - These are proved by `Serve.NotFoundDelegates` and `Serve.NotFoundSoaExtra`.
- **A malformed SOA row in the answer loop**:
  - It is still answered: the `rr = nil` at `pdsql.go:89` clears the variable local to that case, not the record that is appended.
  - So the answer holds whatever fields `ParseSOA` wrote before it failed.

## Model

| member | source | states |
|---|---|---|
| Strings.TrimDot | pdsql.go:177-180 | exactly one final dot is removed when there is one, and nothing otherwise |
| Strings.Fqdn | pdsql.go:78-80 | the name gains a final dot only when it lacks one |
| Strings.FqdnInverse | pdsql.go:78-80 | adding the dot is idempotent, and removing the dot undoes it |
| Strings.IndexRune | pdsql.go:220 | the first index of the character, or -1 exactly when it does not occur |
| Strings.IndexRuneAfter | pdsql.go:220 | in `a + c + b` with no `c` in `a`, the first `c` is at `|a|` |
| Strings.Split | pdsql.go:117 | `strings.Split` with a one-character separator; at least one field; its laws are `Strings.SplitSepFree`, `Strings.JoinSplit` and `Strings.SplitJoin` |
| Strings.SplitSepFree | pdsql.go:117 | no field of `strings.Split` contains the separator |
| Strings.JoinSplit | pdsql.go:117 | joining the fields with the separator gives the text back |
| Strings.SplitJoin | pdsql.go:132 | splitting a join of separator-free fields gives the fields back |
| Strings.SplitCons | pdsql.go:253 | a separator-free first field is split off on its own |
| Strings.SplitTrailingSep | pdsql.go:293 | text ending in the separator has an empty last field |
| Strings.SplitAppend | pdsql.go:253 | splitting `a + sep + b` is the concatenation of the two splits |
| Strings.JoinAppend | pdsql.go:253 | joining concatenated field lists puts one separator between the two joins |
| Strconv.Uint16 | pdsql.go:121 | `uint16(i)` is `i` within range, and congruent to `i` modulo 2^16 otherwise |
| Strconv.Uint32 | pdsql.go:262 | `uint32(i)` is `i` within range, and congruent to `i` modulo 2^32 otherwise |
| Strconv.Atoi | pdsql.go:120 | success only for an optional sign followed by at least one digit; the value is that of the digits, negated after `-` |
| Strconv.AtoiLeadingZero | pdsql.go:120 | a leading zero does not change the value read |
| Strconv.DigitsValueLeadingZero | pdsql.go:120 | a digit string with a zero in front has the same value |
| Strconv.Decimal | pdsql.go:120 | the decimal form of a number is a non-empty digit string |
| Strconv.DigitsValueDecimal | pdsql.go:120 | the value of the decimal form is the number |
| Strconv.AtoiDecimal | pdsql.go:120 | `Atoi` reads back a decimal form, with or without a sign |
| Strconv.DecimalHasNoSeparators | pdsql.go:117 | decimal text contains neither a space nor a dot |
| PdnsModel.BlankRecord | pdsql.go:183 | the record before gorm fills it has ID 0, empty content and the looked-up name |
| Repository.FindRecords | pdsql.go:47 | the direct and SOA lookups; what they return is stated by `Repository.FindRecordsSpec` |
| Repository.FindFirst | pdsql.go:185 | the chain lookup; what it returns is stated by `Repository.FindFirstSpec` |
| Repository.FindDomain | pdsql.go:227 | the zone lookup fails with its fault, returns the first domain row of that name, or fails with not-found exactly when there is none (stated by `Repository.FindDomainSpec`) |
| Repository.WildcardRecords | pdsql.go:234 | the wildcard lookup; what it returns is stated by `Repository.WildcardRecordsSpec` |
| Repository.RowsSpec | pdsql.go:47 | a lookup returns exactly the selected rows, and no more rows than the table holds |
| Repository.FirstRowSpec | pdsql.go:185 | the first selected row in table order, or nothing exactly when no row is selected |
| Repository.FirstDomainSpec | pdsql.go:227 | the first domain row of that name in table order, or nothing exactly when there is none |
| Repository.FindRecordsSpec | pdsql.go:47 | a faulty lookup fails with its fault; otherwise the rows whose name and type match, an empty condition matching everything |
| Repository.FindFirstSpec | pdsql.go:185-187 | a faulty lookup fails with its fault; otherwise a matching row of one of the types, or the untouched blank record when none matches |
| Repository.FindDomainSpec | pdsql.go:227-232 | a faulty lookup fails with its fault; otherwise the first domain row of that name, or not-found exactly when there is none |
| Repository.WildcardRecordsSpec | pdsql.go:234-239 | the zone's rows whose name contains `*`, of the type asked unless it is ANY |
| SoaText.ParseSOA | pdsql.go:252-285 | `ParseSOA` on values; what it promises is stated by `SoaText.ParseSOAContract`, `SoaText.ParseFormat` and `SoaText.ParsePartialWrites` |
| SoaText.NumericPrefix | pdsql.go:259-283 | how many of fields 2..6 parse before the first that does not |
| SoaText.ParseSOAContract | pdsql.go:252-285 | success iff at least seven fields and fields 2..6 all parse; with fewer fields the record is untouched; Ns/Mbox and each timer written as far as parsing got |
| SoaText.ParseFieldsContract | pdsql.go:257-284 | with seven fields: Ns and Mbox set, success iff all five timers parse, each timer written exactly when it and those before it parsed |
| SoaText.ParseFieldsTimers | pdsql.go:259-283 | timer `j` holds its field modulo 2^32 if fields 2..2+j parsed, and its old value otherwise |
| SoaText.ParseFormat | pdsql.go:252-285 | parsing the stored text of an SOA record gives that record back, whatever the record held before |
| SoaText.ParseIgnoresExtraFields | pdsql.go:254 | fields after the seventh are ignored |
| SoaText.ParseFieldsReadsSeven | pdsql.go:257-283 | the result depends only on the first seven fields |
| SoaText.ParsePartialWrites | pdsql.go:257-260 | a bad serial still leaves Ns and Mbox written; fewer than seven fields write nothing |
| Answers.HeaderFor | pdsql.go:77-80 | the header has the row's type and TTL, the query class, and the row's name with a final dot added only when it lacks one |
| Answers.MaterializeMX | pdsql.go:115-128 | not exactly two fields is a malformed-MX error; a non-numeric preference is an invalid-preference error; otherwise an MX whose preference is `uint16` of the parsed value and whose host is the second field verbatim |
| Answers.MaterializeSRV | pdsql.go:130-151 | not four fields, bad priority, bad weight, bad port: each its own error, checked in that order; otherwise an SRV whose priority, weight and port are `uint16` of the parsed values and whose target is the fourth field verbatim |
| Answers.Materialize | pdsql.go:76-154 | only MX and SRV rows can fail; an MX row is read by `MaterializeMX` and an SRV row by `MaterializeSRV`, with the row's header; handled types get the header, so the answer has the row's type; other types give the zero-valued `Blank` record (in the source its header type is 0; the mnemonic `Blank` carries is the model's own note of the row) |
| Answers.MaterializeSimpleTypes | pdsql.go:86-113 | NS, CNAME, A and AAAA keep the content verbatim, TXT is one segment, PTR is made fully qualified, SOA is parsed |
| Answers.MXRoundTrip | pdsql.go:115-125 | the content `"<pref> <host>"` gives an MX with that preference and host |
| Answers.MXWithoutPreferenceFails | pdsql.go:117-128 | a one-field MX content is a malformed-MX error, whatever `Prio` holds |
| Answers.MXPreferenceConversions | pdsql.go:120-125 | the preference is the parsed value modulo 2^16 (`"65546 mx."` gives 10); a leading zero, a `+` or a `-` in front of the digits is accepted |
| Answers.SRVRoundTrip | pdsql.go:130-151 | the content `"<priority> <weight> <port> <target>"` gives an SRV with those values |
| Answers.MaterializeAll | pdsql.go:75-161 | a completed loop gives one answer record per row, each the materialization of its row |
| Answers.MaterializeAllFirstError | pdsql.go:75-161 | a failed loop reports the error of the first row that fails, every earlier row succeeding |
| Answers.MaterializeAllSucceedsIff | pdsql.go:75-161 | the loop completes exactly when every row materializes |
| Labels.DropFinalEmpty | pdsql.go:293-294 | only an empty last field is dropped |
| Labels.SplitDomainName | pdsql.go:293-294 | the root and the empty name have no labels |
| Labels.SplitDomainNameSepFree | pdsql.go:293-294 | no label contains a dot |
| Labels.SplitDomainNameJoin | pdsql.go:293-294 | a name has at least one label, and joining the labels with dots gives the name without its final dot |
| Labels.SplitDomainNameCons | pdsql.go:293-294 | the labels of `leftmost.zone` are `leftmost` followed by the labels of `zone` |
| Labels.Fold | pdsql.go:323-328 | upper-case ASCII letters become lower case; everything else is unchanged |
| Labels.Equal | pdsql.go:309-334 | the comparison loop computes `LabelEqual` |
| Labels.Lower | pdsql.go:323-328 | lower-casing folds every character and keeps the length |
| Labels.LabelEqualIsCaseInsensitive | pdsql.go:309-334 | two labels are equal iff one is `*` or they agree after ASCII lower-casing |
| Labels.LabelEqualProperties | pdsql.go:309-334 | label equality is reflexive and symmetric, ignores case, and `*` equals anything |
| Labels.LabelEqualNotTransitive | pdsql.go:310-312 | because of `*`, label equality is not transitive |
| Labels.WildcardMatch | pdsql.go:288-307 | the matching loop computes `WildcardMatches` |
| Labels.EqualLabels | pdsql.go:296-306 | the label loop computes `LabelsMatch` |
| Labels.WildcardMatchesSymmetric | pdsql.go:288-307 | matching is symmetric in its two names |
| Labels.WildcardNeedsSameDepth | pdsql.go:296-298 | names with different label counts never match, unless one of them is the root |
| Labels.StarLabels | pdsql.go:293-294 | the labels of `*.zone` are `*` followed by the labels of `zone` |
| Labels.LabelsMatchStarHead | pdsql.go:300-306 | a leading `*` matches any first label when the rest are identical |
| Labels.StarMatchesOneLabel | pdsql.go:288-307 | `*.zone` matches every name one label below `zone` |
| Labels.TwoLabelsDepth | pdsql.go:293-294 | a name two labels below `zone` has two more labels than `zone` |
| Labels.StarDoesNotMatchTwoLabels | pdsql.go:296-298 | `*.zone` does not match a name two labels below `zone` |
| Labels.StarDoesNotMatchApex | pdsql.go:296-298 | `*.zone` does not match `zone` itself |
| Labels.WildcardExampleA | pdsql_test.go:337 | `*.example.org.` matches `a.example.org.` |
| Labels.WildcardExampleAbcd | pdsql_test.go:338 | `*.example.org.` matches `abcd.example.org.` |
| Labels.WildcardExampleApex | pdsql_test.go:335 | `*.example.org.` does not match `example.org.` |
| Resolve.StepAt | pdsql.go:183-207 | one pass of the chain loop's body; stated by `Resolve.StepAtSpec` |
| Resolve.Chain | pdsql.go:182-208 | the chain loop with a bound on its lookups; stated by `Resolve.ChainShape`, `Resolve.ChainEnds`, `Resolve.ChainFuelMonotone` and `Resolve.ChainNeverYieldsAAAA` |
| Resolve.StepAtSpec | pdsql.go:183-207 | one lookup fails exactly on a faulty query; otherwise it stops, or returns a found row of the current name with one of the three types, followed exactly when it is a CNAME, at its target without the final dot |
| Resolve.LookupsSound | pdsql.go:183-207 | every step the store's lookup returns is sound |
| Resolve.LookupStep | pdsql.go:183-207 | one iteration of the loop body computes the store's lookup |
| Resolve.ResolveCNAMEs | pdsql.go:170-211 | the loop returns the chain from the name without its final dot |
| Resolve.ThenAssociative | pdsql.go:191 | collecting records in two steps is collecting them in one |
| Resolve.ChainLinked | pdsql.go:182-208 | every completed chain is linked and holds no more records than lookups |
| Resolve.LinkedShape | pdsql.go:189-204 | in a linked chain every record is a found row of the three types, all but the last are CNAMEs, the first has the start name, and each next one has the target of the one before |
| Resolve.ChainShape | pdsql.go:182-208 | the shape of every chain the store yields, as above |
| Resolve.ChainEnds | pdsql.go:189-207 | the chain stops when no row is found, ends at a non-CNAME row, and continues at a CNAME's target |
| Resolve.ChainNeverYieldsAAAA | pdsql.go:171 | no chain record is of type AAAA, because the type list asks for "AAA" |
| Resolve.ChainFuelMonotone | pdsql.go:182-208 | a completed chain is the same whatever larger bound is allowed |
| Resolve.ChainRepositoryError | pdsql.go:185-187 | a failing first lookup is the chain's error |
| Resolve.SelfLoopExhausts | pdsql.go:182-208 | a CNAME that points to its own name exhausts every bound |
| Resolve.StoreSelfLoop | pdsql.go:194-201 | in the store, a self-loop is a CNAME row whose target is its own name |
| Wildcard.Candidates | pdsql.go:219-224 | the zones the walk tries; stated by `Wildcard.CandidatesAreSuffixes`, `Wildcard.CandidatesShrink` and `Wildcard.CandidatesOfLabels` |
| Wildcard.ZoneFrom | pdsql.go:219-232 | the zone walk; stated by `Wildcard.ZoneFromCandidates` and `Wildcard.FirstZoneIsFirstFound` |
| Wildcard.Wildcards | pdsql.go:213-250 | what `SearchWildcard` returns; stated by `Wildcard.WildcardsSound`, `Wildcard.WildcardsComplete`, `Wildcard.WildcardsErrors` and `Wildcard.NoWildcardsWithoutParent` |
| Wildcard.SearchWildcard | pdsql.go:213-250 | the walk and the filter loop compute `Wildcards` |
| Wildcard.FilterMembers | pdsql.go:242-247 | the filter keeps exactly the rows it accepts |
| Wildcard.FilterAppend | pdsql.go:242-247 | the filter distributes over concatenation, so it keeps the order |
| Wildcard.MatchingWildcardsMembers | pdsql.go:242-248 | the filtered rows are exactly those whose name matches the query name |
| Wildcard.MatchingWildcardsAppend | pdsql.go:242-248 | the filtered rows keep the store's order |
| Wildcard.EnclosesTrans | pdsql.go:219-224 | a zone enclosing an enclosing zone encloses the name |
| Wildcard.CandidatesAreSuffixes | pdsql.go:219-224 | each zone the walk tries is what follows some dot of the name |
| Wildcard.CandidatesShrink | pdsql.go:219-224 | each zone tried is shorter than the one before it |
| Wildcard.NoCandidates | pdsql.go:220-224 | a name without a dot, or one that starts with a dot, tries no zone |
| Wildcard.CandidatesOfLabels | pdsql.go:219-229 | for non-empty labels, the walk tries the labels after the first, then after the second, and so on to the last label alone |
| Wildcard.CandidatesAfterLabel | pdsql.go:220-221 | the walk from `leftmost.rest` tries `rest` first |
| Wildcard.ZoneFromCandidates | pdsql.go:219-232 | the walk is the search of its candidate list |
| Wildcard.FirstZoneIsFirstFound | pdsql.go:219-232 | the walk stops at the first candidate with a domain row; it finds none exactly when every candidate is not found; it fails only on a first error other than not-found |
| Wildcard.WildcardsSound | pdsql.go:213-250 | every returned row is a `*` row of the found zone, of the asked type unless ANY, and matches the query name |
| Wildcard.WildcardsComplete | pdsql.go:213-250 | every such row of the found zone is returned |
| Wildcard.ZoneFromError | pdsql.go:227-232 | the walk skips not-found zones, so the error it stops with is never not-found |
| Wildcard.WildcardsErrors | pdsql.go:227-239 | a zone-walk error, or a fetch error other than not-found, is returned as a store error; no zone, or a not-found fetch, gives no records |
| Wildcard.NoWildcardsWithoutParent | pdsql.go:216-224 | the root and single-label names return nothing |
| Serve.NegativeAnswer | pdsql.go:48-56 | the branch for a not-found direct lookup; stated by `Serve.NotFoundDelegates` and `Serve.NotFoundSoaExtra` |
| Serve.Resolved | pdsql.go:61-73 | the direct rows, else the chain, else the wildcards; stated by `Serve.DirectRecordsWin` and `Serve.FallBackOrder` |
| Serve.Serve | pdsql.go:28-168 | the outcome of `ServeDNS`; stated by `Serve.AnsweredIsMaterialized`, `Serve.DirectFailureFails`, `Serve.ResolvedFailureFails`, `Serve.WildcardFailureFails`, `Serve.NotFoundDelegates` and `Serve.DisabledRecordServed` |
| Serve.QueryName | pdsql.go:36-40 | the lookup name is the query name without its last character, the root staying "." |
| Serve.TypeFilter | pdsql.go:42-45 | ANY places no type condition; any other type is asked as it is |
| Serve.Collect | pdsql.go:61-73 | the fall-back code computes `Resolved` |
| Serve.BuildAnswer | pdsql.go:75-161 | the answer loop computes `MaterializeAll`, stopping at the first error |
| Serve.MaterializeAllKeepsFailure | pdsql.go:123 | once a prefix has failed, the rest of the rows do not change the outcome |
| Serve.ServeDNS | pdsql.go:28-168 | the handler computes `Serve` |
| Serve.AnsweredIsMaterialized | pdsql.go:75-167 | a query is answered exactly with the materialized resolved rows when there are some; with none it is delegated; a bad row fails it |
| Serve.ResolvedFailureFails | pdsql.go:61-73 | a store error in the chain or the wildcard search is a server failure carrying it |
| Serve.WildcardFailureFails | pdsql.go:68-72 | with no direct row and an empty chain, a failing wildcard search is a server failure carrying a store error other than not-found |
| Serve.DirectRecordsWin | pdsql.go:61-73 | rows found directly are the answer, and neither the chain nor the wildcards are consulted |
| Serve.FallBackOrder | pdsql.go:61-73 | with no direct row the chain is tried, and the wildcards only when the chain is empty |
| Serve.DirectLookup | pdsql.go:35-47 | the direct lookup returns the rows with the name without its final dot, of the asked type, of every type for ANY |
| Serve.DirectFailureFails | pdsql.go:47-59 | a store failure on the direct lookup is a server failure carrying it |
| Serve.NotFoundDelegates | pdsql.go:47-56 | a not-found direct lookup never answers: it is delegated with at most one SOA record for the query name, or it panics on an empty SOA result |
| Serve.NotFoundSoaExtra | pdsql.go:49-55 | the extra SOA record is there exactly when the first SOA row parses |
| Serve.DisabledRecordServed | pdsql.go:36-47 | in any store whose direct lookup does not fail, an A query is answered, and every disabled A row of the query name is in the answer |

## Left out

- `setup.go` is not part of this model. It covers the configuration syntax, opening the database and `AutoMigrate`.
- How gorm builds and runs SQL is not modelled. Each lookup is a function of the table rows, plus an error from `faults`. Concurrent queries are not modelled either.
- Repository.FindDomain: an absent domain is reported as `ErrRecordNotFound`, as the `goto NEXT_ZONE` branch expects. gorm v2's `Find` reports no error and leaves the struct with ID 0, and that outcome is not modelled.
- Repository.FindDomainSpec: an absent domain is reported as `ErrRecordNotFound`. gorm v2's `Find` reports no error and leaves the struct with ID 0. The model follows what the `goto NEXT_ZONE` branch expects.
- Repository.Selects: names and types are compared exactly. In SQL, `name = ?` follows the column's collation, and MySQL's default collation ignores case. So on MySQL the "Case Insensitive Queries" test (pdsql_test.go:134-144, `NoCase.Example.ORG.`) finds rows that the model does not find. The model states what the store gives under a case-sensitive collation, such as SQLite's default.
- Repository.FindRecordsSpec: `Find` into a slice never reports not-found in gorm v2. The model reaches that branch, and every other store error, only through `faults`.
- Answers.Materialize: A and AAAA content stays text. `net.ParseIP` is not modelled. An unparsable address gives a nil IP in the source.
- Answers.Materialize: a mnemonic that miekg/dns does not know panics in the source, because `dns.TypeToRR` has no entry for it to call. The model gives the zero-valued `Blank` record, as for a known type with no case.
- Answers.HeaderFor: the type is kept as its mnemonic. The numeric `dns.StringToType` table is not modelled.
- Serve.ServeDNS: the query type is passed as one mnemonic, used by both the direct lookup and the wildcard search. For a type that has a mnemonic, `state.Type()` (pdsql.go:36) and `dns.TypeToString[qtype]` (pdsql.go:217) give the same text. For a type without one, `state.Type()` gives `TYPE<n>` and `dns.TypeToString` gives the empty string, so the wildcard lookup then asks for `type = ''`. The model does not capture that difference. The numeric type code is not modelled.
- Serve.ServeDNS: the query name is used as the request gives it, without case folding, which is what `state.QName()` does.
- Serve.ServeDNS: `w.WriteMsg`, `plugin.NextOrFailure`, the context, `SetReply`, `Compress` and `Authoritative` are not modelled. The outcome only says which way the query left, and what it carried.
- Resolve.ResolveCNAMEs: the source loop has no bound and no cycle check, so a CNAME cycle never ends. The model takes the number of lookups it may make (`fuel`) and reports `CnameDepthExceeded` when they run out. `Resolve.SelfLoopExhausts` shows that a cycle always runs out.
- Strconv.Atoi: the range error for values beyond 64 bits is not modelled. Any digit string parses.
- Labels.SplitDomainName: escaped dots (`\.`) are not modelled. Names are split at every dot.
- SoaText.ParseSOA: the `*dns.SOA` argument it writes to is passed in and handed back as a value. Both callers pass a freshly allocated record, so no aliasing is lost.
- Strings are sequences of characters, not bytes. `equal` compares bytes, and the model compares characters. Only ASCII letters are folded, in both.
