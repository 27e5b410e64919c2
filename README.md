# GitHub rate-limit transport, modelled in Dafny

This project models the core of a Go library that tracks GitHub API rate
limits and balances requests across several authenticated HTTP transports.

- **Resources** (`resource.dfy`, module `Resources`). A resource is the name
  GitHub gives in the `X-RateLimit-Resource` header. There are thirteen known
  names, kept as an ordered list. The header is read as its first value, or
  as the empty name when the header is absent.
- **Rates** (`rate.dfy`, module `Rates`). A rate is four unsigned 64-bit
  counters: limit, used, remaining and reset. `ParseRate` reads them from the
  four `X-RateLimit-*` headers in that order, in base 10, and stops at the
  first header that fails. The Go `*Rate`, whose `Parse` overwrites the
  fields one at a time, is the class `RateCell`. Its `Parse` keeps the fields
  already written when it stops at a failing header.
- **The registry** (`limits.dfy`, module `Registry`). The class `Limits`
  maps each resource to its latest rate. It can have an optional `Notify`
  hook that is called on every store. It supports store, load, enumeration,
  parsing one response, and the store loop at the end of `Fetch`.
- **Inference** (`infer.dfy`, module `Infer`). This guesses the resource a
  request will consume from its method and path. It strips one leading
  `/api/v3`, tries the cases in order, and falls back to `core`.
- **Balancing** (`balancing.dfy`, module `Balancing`). The two shipped
  strategies are folded over the transports from an empty incumbent. When
  the fold ends with no winner, the transport at a random index is used.
  The class `BalancingTransport` holds the transports and the strategy. Its
  `RoundTrip` runs the fold loop.
- Supporting modules: `Common` (option, result, `uint64` and the
  `int64(uint64)` conversion), `Http` (header maps and `Header.Get`),
  `Decimal` (`strconv.ParseUint` in base 10 for 64 bits, and a decimal
  formatter as its inverse) and `Transports` (the per-token transport that
  owns a registry).

How the Go features are represented:

- Randomness and the clock become parameters. `pick` is the index that
  `rand.Intn` would draw. `now` is the Unix time `time.Now` would give.
- A header map is keyed by canonical header names, for example
  `X-Ratelimit-Limit`.
- A strategy sees each transport as a `Candidate`: the transport's position
  in the list and a snapshot of its registry.
- `ParseRate` (called at limits.go:93) is modelled as the four-header parse
  of rate.go:63-85 applied to a new record.

When no transport knows the resource, the most-remaining strategy makes no
choice. `StrategyMostRemaining` returns its nil incumbent unless the
candidate has strictly more remaining (balancing.go:75-86). So when every
count is zero or unknown, the fold ends at nil and `RoundTrip` draws a random
transport (balancing.go:66-68). The test "fallbacks to random when no limits
known" shows the same (balancing_test.go:73-98).
`Balancing.MostRemainingFold` and `Balancing.MostRemainingAllUnknown` state
this behaviour.

The reset-aware strategy prefers a window that has already reset even when
it has nothing left. That holds when two transports are compared directly.
It does not always hold in the fold that starts from nil. Whenever the
incumbent and the candidate both have zero remaining, the step returns nil.
This happens at the first step, when a transport with zero remaining meets
the nil start: `Balancing.ResetAwareFoldIsOrderSensitive` proves it for two
concrete transports. It also happens in the middle of the fold. A transport
with capacity can first be displaced by one whose reset is past but which
has none left, and that one then meets a transport with nothing remaining.
The fold ends at nil and `RoundTrip` picks at random, although a transport
with capacity exists. `Balancing.ResetAwareFoldDropsCapacity` proves this
for three concrete transports. Nothing says which outcome the authors
intended, so this is recorded here.

## Model

| member | source | states |
|---|---|---|
| Common.ToInt64 | balancing.go:135-142 | Go's `int64(uint64)` conversion: the result is in the signed 64-bit range and congruent to the input modulo 2^64. It is negative exactly when the input is at least 2^63, and equal to the input below that. |
| Decimal.ValueOfFormat | rate.go:64 | The decimal digits of `n` denote `n`: the base-10 reading that `strconv.ParseUint` applies is the inverse of formatting. |
| Decimal.ParseFormat | rate.go:64 | `ParseUint` of the decimal form of `n` gives back `n` when `n` fits in 64 bits and fails otherwise, so the 64-bit range check is exact. |
| Decimal.ParseUintRejects | rate_test.go:36-42 | The empty string, a leading minus, a leading plus and `invalid` do not parse as base-10 `uint64`. |
| Resources.String | resource.go:64-66 | A resource's string is its name unchanged. |
| Resources.Valid | resource.go:69-71 | A resource is valid exactly when it occurs in the list of known resources. |
| Resources.ParseResource | resource.go:74-76 | The resource is the first value of `X-RateLimit-Resource`, or the empty name when that header is absent. |
| Resources.ValidResourcesDistinct | resource.go:52-61 | The known list has thirteen entries and no two are equal. |
| Resources.ValidIsDeclared | resource.go:11-61 | Validity holds exactly for the thirteen declared names (core, search, graphql, integration_manifest, source_import, code_scanning_upload, code_scanning_autofix, actions_runner_registration, scim, dependency_snapshots, audit_log, audit_log_streaming, code_search). |
| Resources.InvalidExamples | resource.go:69-71 | The empty name and `invalid` are not valid resources. |
| Rates.ParseRate | rate.go:63-85 | The parse succeeds exactly when all four headers hold base-10 `uint64` values, and then holds those four values. Otherwise the error names a failing header, and every header before it in the order limit, used, remaining, reset parsed. |
| Rates.ParseRateRoundTrip | rate.go:63-85 | Parsing the headers that carry any rate in decimal gives back exactly that rate. |
| Rates.RemainingNotRecomputed | rate.go:74-78 | Remaining is stored as sent: limit 5000, used 1000 and remaining 4500 parse unchanged even though 5000 minus 1000 is not 4500. |
| Rates.BadLimitFailsFirst | rate.go:64-66 | An absent or empty limit header, or one holding any character that is not a decimal digit, fails the parse at the limit field, whatever the other headers hold. |
| Rates.RateCell.NewRate | rate.go:96-103 | The new record holds exactly the four given values. |
| Rates.RateCell.Equal | rate.go:88-93 | Two records are equal exactly when their four values are equal. |
| Rates.RateCell.Parse | rate.go:63-85 | Succeeds exactly when `ParseRate` does, returns the same error, and on success holds `ParseRate`'s value. Each field before the failing header holds its parsed value, and each field from the failing header on keeps its old value. |
| Registry.Limits.constructor | limits.go:23-29 | A zero `Limits` has no entries and no hook calls; the hook is installed or not. |
| Registry.Limits.Load | limits.go:39-50 | `Load` returns a rate exactly when the resource has an entry, and then the stored one; otherwise it returns nil. |
| Registry.Limits.Store | limits.go:31-37 | The entry for the resource is replaced and all other entries are unchanged. The hook, when set, is called once with the same response, resource and rate. |
| Registry.Limits.Iter | limits.go:52-67 | The enumeration yields each resource once, with its stored rate, and collecting the pairs rebuilds the registry. |
| Registry.Limits.Parse | limits.go:87-99 | With no resource header nothing changes and no error is returned. With a resource but an unparsable rate, `ParseRate`'s error is returned and nothing changes. Otherwise the parsed rate is stored under the resource and the hook sees this response. |
| Registry.Limits.StoreAll | limits.go:140-142 | After `Fetch` stores the decoded `resources` object, the registry is the old one overridden by that object. Without a hook there are no calls. With a hook there is one call per stored entry, each for this response and an entry of the object. |
| Registry.ParseThenLoad | limits_test.go:129-146 | After a response carrying a resource and four numbers is parsed into an empty registry, `Load` of that resource returns exactly those numbers. |
| Infer.TrimPrefix | infer.go:10 | `strings.TrimPrefix`: when the path starts with the prefix, the prefix plus the result is the path; otherwise the result is the path. |
| Infer.InferResource | infer.go:9-48 | The inferred resource is always a known resource and never the empty name. |
| Infer.EnterprisePrefixStrippedOnce | infer.go:10 | A path under `/api/v3` is classified as the rest of the path. |
| Infer.PostOnlyCases | infer.go:21-32 | For any method other than POST, the result is never a SARIF upload, an autofix or a runner registration. |
| Infer.ClassifyCodeSearch | infer.go:12-15 | The result is code search exactly for the path `/search/code`. |
| Infer.ClassifySearch | infer.go:12-16 | The result is search exactly for the other paths under `/search/`. |
| Infer.ClassifyGraphQL | infer.go:17-18 | The result is graphql exactly for the path `/graphql`. |
| Infer.ClassifyIntegrationManifest | infer.go:19-20 | The result is integration manifest exactly for paths under `/app-manifests/`. |
| Infer.ClassifyCodeScanningUpload | infer.go:21-24 | The result is a SARIF upload exactly for a POST to a repository path ending in `/code-scanning/sarifs`. |
| Infer.ClassifyCodeScanningAutofix | infer.go:25-29 | The result is autofix exactly for a POST to a repository path containing `/code-scanning/alerts/` and ending in `/autofix`. |
| Infer.ClassifyActionsRunnerRegistration | infer.go:30-32 | The result is runner registration exactly for a POST to a path starting `/actions/runners/registration-token`. |
| Infer.ClassifyScim | infer.go:33-34 | The result is SCIM exactly for paths under `/scim/v2/`. |
| Infer.ClassifyDependencySnapshots | infer.go:35-37 | The result is dependency snapshots exactly for repository paths containing `/dependency-graph/` that the two earlier POST cases do not take. |
| Infer.ClassifyAuditLog | infer.go:38-40 | The result is audit log exactly for enterprise or organization paths ending in `/audit-log`. |
| Infer.ClassifyAuditLogStreaming | infer.go:41-43 | The result is audit-log streaming exactly for enterprise or organization paths containing `/audit-log/streams` that do not end in `/audit-log`. |
| Infer.ClassifyNeverSourceImport | infer.go:11-47 | No request is classified as source import. |
| Infer.InferCoreByFirstLetter | infer.go:46-47 | A path whose first segment starts with none of the letters s, a, r, e, o, and which is not `/graphql`, is the core API. |
| Infer.ClassifyRepositoryCore | infer.go:21-47 | A non-POST repository path that does not reach the dependency graph is the core API. |
| Infer.ClassifyApiCore | infer.go:10-47 | A path still starting with "/ap" but not "/app" after the single strip, such as a second "/api/v3", matches no case and is the core API. |
| Infer.InferCodeSearchExample | infer_test.go:11-19 | `GET /search/code` is code search, with or without the `/api/v3` prefix. |
| Infer.InferSearchExample | balancing_test.go:132-135 | `GET /search/users` is search. |
| Infer.InferCoreExample | infer_test.go:20-27 | `GET /users/bored-engineer` is the core API. |
| Infer.InferGraphQLExample | infer.go:17-18 | `POST /graphql` is graphql. |
| Infer.InferStripsOnceExample | infer.go:10 | Only one `/api/v3` is removed, so `/api/v3/api/v3/graphql` is the core API. |
| Infer.InferSarifPostExample | infer.go:21-24 | `POST /repos/o/r/code-scanning/sarifs` is a SARIF upload. |
| Infer.InferSarifGetExample | infer.go:21-47 | `GET` on the same path is the core API. |
| Transports.Transport.constructor | transport.go:25-40 | A new transport owns a fresh, empty registry. |
| Balancing.ExtractValues | balancing.go:135-142 | A nil transport, or one with no entry for the resource, gives zero remaining and zero reset. Otherwise the result is the stored remaining count and the reset converted to `int64`. |
| Balancing.ResetInPastIsAsymmetric | balancing.go:146-148 | The two sides cannot both be in the past and earlier than each other. |
| Balancing.StrategyMostRemaining | balancing.go:75-86 | The candidate wins exactly when it has strictly more remaining than the incumbent. Otherwise the incumbent, possibly nil, is kept. |
| Balancing.StrategyResetTimeInPastAndMostRemaining | balancing.go:90-131 | Nil exactly when both sides have zero remaining; otherwise one of the two sides. With a nil incumbent a candidate with capacity wins. A side whose reset is past and earlier than the other's wins. With both resets set, the side resetting sooner wins if it has capacity. After that, strictly more remaining wins and ties keep the incumbent. |
| Balancing.MostRemainingFold | balancing.go:61-64 | The most-remaining fold ends at nil exactly when no transport has anything remaining, counting unknown as zero. Otherwise it picks the earliest transport with the largest remaining count. |
| Balancing.FoldPicksCandidate | balancing.go:61-64 | With either shipped strategy, a winner of the fold is one of the transports. |
| Balancing.SelectPicksCandidate | balancing.go:61-68 | With either shipped strategy, the transport finally used is one of the list, whether the fold or the random draw chose it. |
| Balancing.ResetAwareFoldAllEmpty | balancing.go:95-99 | When no transport has anything remaining, the reset-aware fold ends at nil whatever the reset times. |
| Balancing.ResetAwareFoldIsOrderSensitive | balancing.go:94-109 | A transport whose window has reset, with none left, beats one resetting in an hour with 5 left when the two are compared directly in either order. Folded from nil in the order [reset one, other], the other one wins. |
| Balancing.ResetAwareFoldDropsCapacity | balancing.go:61-68 | With [5 left and no reset, reset past with none left, unknown], the reset-aware fold ends at nil, so the random draw decides although the first transport has capacity. |
| Balancing.MostRemainingPicksLargest | balancing_test.go:39-71 | With remaining 10, 100 and 50, the second transport is chosen. |
| Balancing.MostRemainingAllUnknown | balancing_test.go:73-98 | With no limits known, the fold ends at nil, so the choice falls to the random draw. |
| Balancing.MostRemainingSkipsUnknown | balancing_test.go:100-130 | A transport with 10 remaining is chosen over one that knows nothing. |
| Balancing.BalancingTransport.constructor | balancing.go:24-40 | The default strategy is most-remaining, and each option applied in order replaces it, so the last `WithStrategy` wins. |
| Balancing.BalancingTransport.RoundTrip | balancing.go:51-71 | With no transports this is an error. Otherwise the transport used is the fold's winner for the inferred resource, or the randomly drawn one when the fold ends at nil. With a shipped strategy it is one of the list. |

## Left out

- Concurrency is not modelled: the `sync.Map`, the atomic counters, and reads that interleave with stores. Each operation is one atomic step here.
- Registry.Limits.Store: stores a rate value, not a shared `*Rate`. A caller that keeps the pointer and changes it later would change the stored entry in Go; that aliasing is not modelled. Every pointer the library itself stores is fresh.
- The `Notify` hook's own effects, such as metrics, are not modelled. The hook is a flag, and a ghost log records the arguments of every call.
- Registry.Limits.Iter: returns the whole enumeration. A consumer that stops early is not modelled. The type-assertion failures that end the Go range cannot happen in a typed map.
- Registry.Limits.StoreAll: states how many hook calls there are and that each is for a stored entry, not that each resource is reported exactly once.
- `Limits.Fetch` (limits.go:103-145): the request, the status and I/O error paths, and JSON decoding are not modelled. Only the final store loop is, as `StoreAll`. `DefaultURL` is not modelled.
- `Limits.String` and the JSON and `String` methods of `Rate` are output formatting, so they are not modelled.
- Rates.RateCell.Parse: reports which header failed but not the wrapped `strconv` error text, and not whether it was a syntax or range error.
- Header names are canonical map keys. The case-insensitive lookup of `http.Header.Get` is not modelled.
- `Transport.RoundTrip` and `Transport.Poll` (transport.go:43-72), `BalancingTransport.Poll` (balancing.go:43-48) and `logStrategyDecision` are HTTP delegation, timers, goroutines and logging, so they are not modelled.
- Balancing.BalancingTransport.RoundTrip: returns the chosen transport instead of forwarding the request to it.
- Balancing.BalancingTransport.RoundTrip: the "unknown resource" error branch (balancing.go:57-59) is left out because it cannot be reached. `Infer.InferResource` never returns the empty name.
- Randomness and time are inputs: `pick` stands for `rand.Intn(len(transports))`, and `now` for `time.Now().Unix()`.
- A custom strategy is any function of the resource, the incumbent, the candidate and the time. It sees the transports as snapshots, not live objects. Options other than `WithStrategy` are not modelled.
