# vanity: the go-import lookup and render pipeline, in Dafny

This project models the core of the `vanity` server (package
`pkg/handlers`): the component that answers `go get` for vanity import
paths. A request's `host + path` is the lookup key. An ordered list of
stores is asked in turn and the first hit wins. There are two kinds of
store:

- a file-backed store, which re-reads a JSON array of import records on
  every lookup;
- a DNS-backed store, which parses `go-import=<prefix> <vcs> <root>[ <proxy>]`
  TXT strings published for the host.

A hit is rendered as an HTML page that carries a `go-import` meta tag. A
miss goes to the fallback handler, or is answered with a 404.

Modules, one per source file or concept:

| file | module | models |
|---|---|---|
| `wrappers.dfy` | `Wrappers` | `Option` |
| `go_strings.dfy` | `GoStrings` | `strings.SplitN`, `strings.HasPrefix` (the prefix relation `<=`) and ASCII `strings.EqualFold`, with their laws |
| `imports.dfy` | `Imports` | `Import`, the request URL, the key `host + path`, and the `(Import, bool)` answer of a lookup |
| `dns_store.dfy` | `DnsStore` | `DNSImportStore`: the TXT parser, the record scan, and the store as a class over a resolver |
| `json_store.dfy` | `JsonStore` | `JSONStore`: the source function as a class that counts its calls and its acquired and released streams, the record scan, and the lookup's release discipline |
| `composite.dfy` | `Composite` | `importStores`: the `ImportStore` interface as a datatype over the two store kinds, and the first-hit loop |
| `render.dfy` | `Render` | the HTML template as the structure of the document it produces |
| `handler.dfy` | `Handler` | `ImportHandler.ServeHTTP`: the host rewrite, the lookup, and the sequence of writes made to the response |

Behaviours of the code that the model keeps as written:

- **Bare `go-import` panics.** A TXT string equal to `go-import` (no `=`)
  splits into one part. The name check passes, and `pair[1]` is then read
  out of range, which panics (dns_store.go:45-50). The model gives a lookup
  a third outcome, `Panic`. The composite store and the handler propagate
  it: the panic unwinds out of the loop, and the server drops the
  response. `CrashExactlyOnBareName` shows this is the only string that
  panics. The claim that no error inside a store escapes `Lookup` is
  therefore false for this input, and the model follows the code.
- **`{}` holes match the empty key.** The file store compares a record's
  prefix to the key by plain equality (json_store.go:53-55). An all-empty
  record therefore matches a request whose host and path are both empty.
  `EmptyKeyMatchesHole` and `Handler.EmptyRequestHitsHole` show that the
  test records, whose last entry is `{}`, answer the empty request with a
  hit and a 200. `HolesSkippedForNonEmptyKey` shows that for every
  non-empty key a hole can never match.
- **The fallback sees the rewritten URL.** `lookup` is the request's own URL
  object, so overwriting its host with `r.Host` (import.go:41-42) also
  changes the URL the fallback later receives. The request is therefore not
  handed to the fallback unmodified.
- **200 is committed before the template runs.** A template failure appends
  a 500 error to a response whose status is already 200 (import.go:47-51).
- **Case-insensitive prefix comparison is in effect exact.** The DNS
  parser first checks that the value starts with the key (dns_store.go:50).
  On strings of characters (valid UTF-8), the later `EqualFold` test
  (dns_store.go:59) then accepts only a first field that equals the key
  exactly (`EqualFoldOfPrefixes`, `ValueAcceptShape`). Go compares bytes,
  and for invalid UTF-8 the two tests can disagree (see "## Left out").

Environment inputs are parameters:

- The DNS resolver is a map from host to its TXT strings. A host without an
  entry stands for any resolver error, timeout included.
- The file source is a `Source` object whose `data` says what each call
  yields: an open error, a stream that does not decode, or a stream that
  decodes to a record array.
- Whether the template execution fails is a boolean argument of `ServeHTTP`.
- The fallback handler is a function from the URL it receives to the writes
  it makes.

## Model

| member | source | states |
|---|---|---|
| GoStrings.SplitN | pkg/handlers/dns_store.go:45 | `strings.SplitN` for a one-character separator and n >= 1 gives between one and n parts |
| GoStrings.SplitNShape | pkg/handlers/dns_store.go:45 | the parts of `SplitN(s, sep, n)` join back to `s` with `sep`; every part but the last is free of `sep`, and so is the last when fewer than n parts are made |
| GoStrings.SplitNUnique | pkg/handlers/dns_store.go:54 | any cut of `s` into at most n parts with the SplitN shape is the SplitN result, so SplitN is determined by its shape |
| GoStrings.SplitNJoin | pkg/handlers/dns_store.go:45 | splitting and re-joining with the separator gives the string back |
| GoStrings.SplitNSepFree | pkg/handlers/dns_store.go:54 | every SplitN part except a last part holding the rest is free of the separator |
| GoStrings.SplitNNoSep | pkg/handlers/dns_store.go:45 | a string without the separator splits into itself alone |
| GoStrings.IndexOf | pkg/handlers/dns_store.go:45 | the index found holds the character and no earlier position does; None means the character is absent |
| GoStrings.Fold | pkg/handlers/dns_store.go:59 | a folded character is never an upper-case letter, and it is a lower-case letter exactly when the input is a letter of either case |
| GoStrings.EqualFold | pkg/handlers/dns_store.go:59 | every string equals itself up to case, and strings equal up to case have the same length |
| GoStrings.EqualFoldEquivalence | pkg/handlers/dns_store.go:59 | equality up to case is reflexive, symmetric and transitive |
| GoStrings.EqualFoldOfPrefixes | pkg/handlers/dns_store.go:50-59 | for two prefixes of one string, case-insensitive equality holds exactly when they are identical |
| DnsStore.ParseTxt | pkg/handlers/dns_store.go:45-69 | one TXT string can panic the lookup only when it is the bare name `go-import`, and an accepted string's prefix is the key |
| DnsStore.ParseValue | pkg/handlers/dns_store.go:50-69 | the checks on the value after `go-import=` never panic, and the prefix they accept is the key itself |
| DnsStore.ScanTxt | pkg/handlers/dns_store.go:44-72 | the record loop's hit has the key as its prefix, and its only non-hit return value is `(Import{}, false)` |
| DnsStore.Answer | pkg/handlers/dns_store.go:39-72 | a resolver error is a miss; a hit's prefix is the key; every non-hit return value is `(Import{}, false)` |
| DnsStore.DNSImportStore.NewDNSStore | pkg/handlers/dns_store.go:26-32 | a given resolver is kept; a nil one is replaced by the platform resolver |
| DnsStore.DNSImportStore.Lookup | pkg/handlers/dns_store.go:35-73 | the loop computes the record scan of the host's TXT strings; a resolver error is a miss; a hit's prefix is the key; every non-hit return is `(Import{}, false)` |
| DnsStore.CrashExactlyOnBareName | pkg/handlers/dns_store.go:45-50 | a TXT string panics the lookup exactly when it is the bare name `go-import` |
| DnsStore.NotSkippedNamesGoImport | pkg/handlers/dns_store.go:45-48 | every string not skipped is the bare name or `go-import=` followed by a value, and is judged by that value |
| DnsStore.OtherNamesSkipped | pkg/handlers/dns_store.go:45-48 | a string not beginning with `go-import` is skipped for every key |
| DnsStore.ValueAcceptShape | pkg/handlers/dns_store.go:50-69 | an accepted value is exactly `<key> <vcs> <root>` or `<key> <vcs> <root> <proxy>`, with the prefix equal to the key and a space-free prefix, VCS and root |
| DnsStore.AcceptShape | pkg/handlers/dns_store.go:44-69 | an accepted TXT string is exactly `go-import=` followed by such a value; with `RoundTrip` this characterises the accepted strings in both directions |
| DnsStore.ValueRoundTrip3 | pkg/handlers/dns_store.go:54-63 | space-free key, VCS and root joined by spaces parse back to `Import{key, vcs, root, ""}` |
| DnsStore.ValueRoundTrip4 | pkg/handlers/dns_store.go:54-67 | a fourth field becomes the proxy verbatim |
| DnsStore.RoundTrip | pkg/handlers/dns_store.go:44-69 | `go-import=<key> <vcs> <root>[ <proxy>]` parses to the Import it was built from, for both the three-field and the four-field forms |
| DnsStore.TooFewFieldsSkipped | pkg/handlers/dns_store.go:54-57 | a value with one or two fields is skipped |
| DnsStore.LongerPrefixSkipped | pkg/handlers/dns_store.go:50-61 | a record for a longer path passes the byte-prefix check but fails the prefix-equality check and is skipped |
| DnsStore.OnlyDeclaredPrefixAccepted | pkg/handlers/dns_store.go:50-61 | a well-formed three-field string is skipped for every key other than the prefix it declares |
| DnsStore.ScanTxtFirst | pkg/handlers/dns_store.go:44-70 | the scan is decided by the first string that is not skipped, in resolver order |
| DnsStore.ScanTxtMiss | pkg/handlers/dns_store.go:44-72 | the scan misses exactly when every string is skipped, and every non-hit answer is `(Import{}, false)` |
| DnsStore.ScanTxtIgnoresLater | pkg/handlers/dns_store.go:44-70 | strings after the deciding one are never looked at |
| DnsStore.FirstRecordHit | pkg/handlers/dns_store.go:44-69 | a well-formed string for the key at the head of the answer decides the lookup as a hit |
| DnsStore.TestRecordOne | pkg/handlers/dns_store_test.go:15 | the first test string is accepted for `example.org/one` and skipped for every other key |
| DnsStore.TestRecordTwo | pkg/handlers/dns_store_test.go:16 | the second test string is accepted for `example.org/two` and skipped for every other key |
| DnsStore.TestResolverOne | pkg/handlers/dns_store_test.go:13-25 | on the test resolver, `example.org/one` is a hit on the first record |
| DnsStore.TestResolverTwo | pkg/handlers/dns_store_test.go:13-26 | on the test resolver, `example.org/two` is a hit on the second record |
| DnsStore.TestResolverOtherPaths | pkg/handlers/dns_store_test.go:13-27 | on the test resolver, every example.org path other than `/one` and `/two` (such as `/authsvc`) is a miss |
| DnsStore.TestResolverOtherHost | pkg/handlers/dns_store_test.go:19-28 | example.com publishes no go-import string, so every path there is a miss |
| JsonStore.MatchRecord | pkg/handlers/json_store.go:53-55 | a `{}` hole matches exactly the URL whose host and path are both empty |
| JsonStore.ScanRecords | pkg/handlers/json_store.go:44-50 | the record loop returns a record of the array whose prefix is the key, or `(Import{}, false)` |
| JsonStore.Answer | pkg/handlers/json_store.go:31-50 | an open error or a decode error is a miss; a hit's prefix is the key; every non-hit return value is `(Import{}, false)` |
| JsonStore.Source.Open | pkg/handlers/json_store.go:31 | one call of the source counts one call and hands out a stream exactly when it yields one |
| JsonStore.Source.Cleanup | pkg/handlers/json_store.go:36 | a release action releases one outstanding stream |
| JsonStore.JSONStore.NewJSONStore | pkg/handlers/json_store.go:27 | the store reads through the given source |
| JsonStore.JSONStore.Lookup | pkg/handlers/json_store.go:30-51 | the answer is the first record whose prefix equals the key, or a miss on an open error, a decode error or no match; the source is called once; the stream is released exactly when one was acquired |
| JsonStore.RepeatedLookup | pkg/handlers/json_store.go:30-51 | two lookups with one key against unchanged data agree, cost two source calls and leave no stream unreleased |
| JsonStore.ScanRecordsFirst | pkg/handlers/json_store.go:44-48 | the scan returns the first matching record, unmodified |
| JsonStore.ScanRecordsMiss | pkg/handlers/json_store.go:44-50 | the scan misses exactly when no record matches; a hit is a record of the array whose prefix is the key |
| JsonStore.HolesSkippedForNonEmptyKey | pkg/handlers/json_store.go:53-55 | for a non-empty key the scan answers as if every `{}` record were absent |
| JsonStore.AnswerIgnoresSchemeAndQuery | pkg/handlers/json_store.go:53-55 | scheme and query never change the answer |
| JsonStore.EmptyKeyMatchesHole | pkg/handlers/import_test.go:16-19 | against the test records, the empty URL hits the trailing `{}` record |
| Composite.Store.Lookup | pkg/handlers/import.go:27-31 | an interface call answers what the variant's own store answers; a file-backed call costs one source call and keeps the stream balance |
| Composite.Answer | pkg/handlers/import.go:101 | each member, of either kind, answers a hit on the key, a panic, or exactly `(Import{}, false)` |
| Composite.FirstHit | pkg/handlers/import.go:99-107 | the composite's hit or panic is the answer of one of its members; otherwise it is `(Import{}, false)`; a hit's prefix is the key |
| Composite.Lookup | pkg/handlers/import.go:99-107 | the loop returns the first member answer that is a hit (a panic unwinds it), else `(Import{}, false)`; `consulted` is exactly the members up to the deciding one; no source is left with a stream unreleased |
| Composite.FirstHitIsFirstSettling | pkg/handlers/import.go:100-103 | the composite answers what the first member that hits (or panics) answers, and asks exactly the members up to it |
| Composite.FirstHitMiss | pkg/handlers/import.go:99-106 | the composite misses exactly when every member misses; an empty list misses; every non-hit answer is `(Import{}, false)` |
| Composite.AllMiss | pkg/handlers/import.go:100-106 | when no member hits, the composite misses after asking every member |
| Composite.MemberMissIsMiss | pkg/handlers/import.go:101 | a member that does not hit answers exactly `(Import{}, false)` |
| Composite.FirstHitIgnoresLater | pkg/handlers/import.go:100-103 | members after the deciding one do not change the answer |
| Render.MetaContent | pkg/handlers/import.go:74-76 | the go-import content opens with the prefix and a space, in both forms |
| Render.Render | pkg/handlers/import.go:72-88 | the head opens with the go-import tag; tool mode has exactly that one head element and an empty body, and browser mode has more of both |
| Render.ModeSelectsSections | pkg/handlers/import.go:72-88 | both modes open the head with the one go-import tag; tool mode has nothing else; browser mode adds the 10-second refresh to `https://godoc.org/<prefix>` and the body banner |
| Render.MetaContentFields | pkg/handlers/import.go:74-76 | a client splitting the meta content on spaces reads `[prefix, "mod", proxy]` when a proxy is set and `[prefix, vcs, root]` otherwise |
| Render.DnsRecordAdvertisedVerbatim | pkg/handlers/import.go:76 | a proxy-free DNS record is advertised as its TXT string: the string is `go-import=` plus the meta content, or plus the meta content and one space when a trailing empty proxy field was dropped |
| Handler.StatusFixedByFirstWrite | pkg/handlers/import.go:47-50 | once anything is written the status is fixed: later writes, the 500 error after a failed render included, cannot change it |
| Handler.ToolModeOnlyForOne | pkg/handlers/import.go:45 | only the exact query value `1` selects tool mode; an absent parameter, `true` and `01` select the browser page |
| Handler.Reply | pkg/handlers/import.go:44-62 | a panic leaves no status; a hit gives 200; a miss with a fallback is exactly the fallback's writes; a miss without one gives 404 |
| Handler.Error | pkg/handlers/import.go:50 | `http.Error` writes the status, then the text and a newline |
| Handler.Execute | pkg/handlers/import.go:49 | template execution writes the rendered document, or nothing when it fails |
| Handler.ServeFallback | pkg/handlers/import.go:57 | the fallback's writes follow whatever was written before |
| Handler.ImportHandler.NewImportHandler | pkg/handlers/import.go:68-71 | the handler keeps the fallback and the stores in priority order |
| Handler.ImportHandler.ServeHTTP | pkg/handlers/import.go:40-63 | the URL's host becomes the request's Host; the writes are those of the composite answer for the rewritten URL; no source is left with a stream unreleased |
| Handler.ImportHandler.Respond | pkg/handlers/import.go:44-62 | the writes made for a store answer are exactly `Reply` of that answer, in order |
| Handler.HitCommits200 | pkg/handlers/import.go:44-53 | on a hit, 200 is written first and decides the status; a good render follows with the document for the mode; a failed render only appends a 500 error |
| Handler.MissDelegates | pkg/handlers/import.go:56-60 | on a miss with a fallback, the response is exactly the fallback's |
| Handler.MissWithoutFallback404 | pkg/handlers/import.go:62 | on a miss without a fallback, the response is 404 with `Not Found` as its body |
| Handler.PanicDropsResponse | pkg/handlers/import.go:44 | a store's panic leaves the client without a status |
| Handler.ProtectedHostUnauthorized | pkg/handlers/import_test.go:95-100 | the test fallback answers 401 for a miss addressed to example.com, because it sees the URL after the host rewrite |
| Handler.EmptyRequestHitsHole | pkg/handlers/import_test.go:48 | the empty request against the test records is a hit on `Import{}` and is answered 200 |

`Composite.Sources` and `Composite.Covers` are proof bookkeeping, not part
of the system: they name the set of file sources a handler's stores read
through, which `ServeHTTP` may modify.

## Left out

- Composite.Lookup: does not state how many times each source is called. It states which members are consulted (`consulted`), and `Store.Lookup` states one source call per file-backed member.
- The network and the 15-second `LookupTXT` deadline (dns_store.go:13, 36-39): the resolver is a map, and a host without an entry stands for every resolver failure.
- The default `net.Resolver` chosen for a nil resolver is an opaque argument (`platform`) of `NewDNSStore`.
- JSON decoding (json_store.go:39): a stream's content is given as already decoded, or as a decode error. Partial decoding and unknown fields are not modelled.
- `NewFileReader` and `os.Open` (json_store.go:16-24): the source is an abstract `Source` whose yield is fixed for its lifetime. A file that changes between calls is not modelled.
- Error logging to standard error (json_store.go:33, 40) has no observable effect on the answer and is omitted.
- Template execution: the page is its element structure before HTML escaping. Whitespace, the literal markup, escaping and partial output from a template failing halfway are not modelled.
- Strings are sequences of Unicode characters, that is valid UTF-8 only, not bytes. Go's `strings` functions work on bytes and decode invalid UTF-8 as U+FFFD, so for a key holding invalid UTF-8 (a request path with `%EF`) `HasPrefix` and `EqualFold` can disagree. Go can then return a record whose prefix is not byte-equal to the key.
- DnsStore.DNSImportStore.Lookup: its promise that a hit's prefix is the key holds for valid UTF-8 keys and records only, as do `ValueAcceptShape`, `AcceptShape` and `EqualFoldOfPrefixes`.
- `strings.EqualFold` is modelled with ASCII case folding only. Full Unicode simple folding is not modelled. For valid UTF-8 the prefix check before it makes the difference unobservable (`EqualFoldOfPrefixes`).
- HTTP headers set by `http.Error` (content type, `nosniff`) and the response body's byte encoding are not modelled; a response is the sequence of its writes.
- `r.URL.Query().Get("go-get")` is taken as the already-extracted `goGet` field; query-string parsing is not modelled.
- Stores other than the two in this package (such as the test-only map store) are not modelled, and neither is a composite nested inside a composite.
- Concurrency between requests is not modelled; each lookup is a sequential call.
- The second copies of the store types at import.go:109-187 are not modelled; the store files are.
- The command-line wiring (cmd/root.go, cmd/serve.go, main.go) is not part of this model.
