# Sentinel-to-Safe delivery in VMware Secrets Manager, in Dafny

The model covers three parts of VMware Secrets Manager:

- **The identity gate.** Each role (Sentinel, Safe, workload) is recognised by the SPIFFE ID prefix configured for it.
- **Sentinel's request builder.** This is how a `SentinelCommand` becomes the one request Sentinel sends to Safe:
  - a keys request when the operator gives a key triple;
  - otherwise a secret upsert or delete, with its backing-store, format and validity defaults;
  - secrets that carry the generation marker are replaced by generated values;
  - the init-completed marker is sent once the identity source is acquired.
- **Safe's `ReceiveKeys` handler.** It authorizes Sentinel, trims the three key fragments, and stores their newline-joined combination as the master key. Every rejection is journalled.

Modules:

- `Wrappers`: `Option`.
- `GoStrings`: the parts of Go's `strings` package the core uses, on `seq<char>`:
  - `HasPrefix`, `Index`, `Replace(s, old, "", 1)`;
  - `Split` and `Join` on a one-character separator;
  - `TrimSpace` with `unicode.IsSpace`.
- `Validation`: `IsSentinel`, `IsSafe` and `IsWorkload`. The environment's prefix is a parameter.
- `Entity`: the command and the request records, and the two storage enums.
- `Audit`: journal entries.
- `SentinelPost`: the authorizer rule, the defaulting rules, the keys request, secret generation, and the dispatch of `Post` and `PostInitializationComplete`.
- `ReceiveRoute`: the Safe process as a class, holding the master-key register and the audit journal, with `ReceiveKeys` as a method on it.
- `KeyDelivery`: lemmas that connect Sentinel's keys request to the key Safe stores.

## Model

| member | source | states |
|---|---|---|
| Validation.IsSentinel | core/validation/validation.go:20-22 | an id is Sentinel's exactly when the Sentinel prefix is a prefix of it |
| Validation.IsSafe | core/validation/validation.go:26-28 | an id is Safe's exactly when the Safe prefix is a prefix of it |
| Validation.IsWorkload | core/validation/validation.go:32-34 | an id is a workload's exactly when the Workload prefix is a prefix of it |
| Validation.HasRole | core/validation/validation.go:20-34 | every role test holds iff the id is at least as long as the prefix and begins with it |
| Validation.ShortIdRejected | core/validation/validation.go:20-34 | an id shorter than the prefix is rejected for every role |
| Validation.AcceptedIdExtends | core/validation/validation.go:20-34 | an accepted id stays accepted whatever is appended to it |
| Validation.PrefixAccepted | core/validation/validation.go:20-34 | the prefix itself is accepted, and an empty prefix accepts every id |
| Validation.BothRolesNeedNestedPrefixes | core/validation/validation.go:20-28 | one id can be both Sentinel and Safe only if one prefix is a prefix of the other |
| Validation.NestedPrefixesOverlap | core/validation/validation.go:20-28 | if the Sentinel prefix is a prefix of the Safe prefix, every Safe id is also a Sentinel id |
| GoStrings.HasPrefix | core/validation/validation.go:21 | `strings.HasPrefix` holds iff the prefix fits and the leading slice equals it |
| GoStrings.HasPrefixExtends | core/validation/validation.go:20-34 | having a prefix survives appending to the string |
| GoStrings.Index | app/sentinel/internal/safe/post.go:317-319 | `strings.Index`: the first position where the substring occurs, or none if it never occurs |
| GoStrings.ReplaceFirst | app/sentinel/internal/safe/post.go:317-319 | `strings.Replace(s, old, new, 1)`: a leading occurrence is replaced by the replacement; without an occurrence the string is unchanged |
| GoStrings.Count | app/sentinel/internal/safe/post.go:298-299 | the number of occurrences is at most the length, and it is zero iff the character is absent |
| GoStrings.Split | app/sentinel/internal/safe/post.go:298 | `strings.Split` yields one more piece than there are separators |
| GoStrings.SplitPiecesFree | app/sentinel/internal/safe/post.go:298 | no piece of a split contains the separator |
| GoStrings.JoinOfSplit | app/sentinel/internal/safe/post.go:298-304 | joining the pieces of a split with the separator gives the original string |
| GoStrings.SplitOfJoin | app/sentinel/internal/safe/post.go:298-304 | splitting a join of separator-free pieces gives the pieces back |
| GoStrings.TrimLeftSpec | app/safe/internal/server/route/receive.go:53-55 | trimming on the left drops only white space and leaves a suffix that starts with a non-space |
| GoStrings.TrimRightSpec | app/safe/internal/server/route/receive.go:53-55 | trimming on the right drops only white space and leaves a prefix that ends with a non-space |
| GoStrings.IsSpace | app/safe/internal/server/route/receive.go:53-55 | `unicode.IsSpace`, a Latin-1 switch plus a table lookup above Latin-1, holds exactly for the code points in the ranges of Unicode's White_Space table |
| GoStrings.LatinSwitchMatchesTable | app/safe/internal/server/route/receive.go:53-55 | within Latin-1, the eight-character switch of `unicode.IsSpace` accepts exactly the White_Space code points |
| GoStrings.TrimSpace | app/safe/internal/server/route/receive.go:53-55 | `strings.TrimSpace` gives a result no longer than its input, with no white space at either end |
| GoStrings.TrimSpaceIsCore | app/safe/internal/server/route/receive.go:53-55 | the trimmed string is a slice of the input with only white space outside it |
| GoStrings.TrimSpaceEmptyIff | app/safe/internal/server/route/receive.go:57 | trimming gives "" exactly when the input is empty or all white space |
| GoStrings.TrimSpaceOfTrimmed | app/safe/internal/server/route/receive.go:53-55 | a string with no white space at either end is unchanged by trimming |
| GoStrings.TrimSpaceIdempotent | app/safe/internal/server/route/receive.go:53-55 | trimming twice is the same as trimming once |
| Entity.KeyLines | app/safe/internal/server/route/receive.go:63 | the combined key has the three fragments' lengths plus two, with line breaks right after the first and second fragments |
| SentinelPost.Authorize | app/sentinel/internal/safe/post.go:35-45 | a peer is accepted iff its id is a Safe id; otherwise the reason starts with the fixed rejection text and ends with the quoted id |
| SentinelPost.DecideBackingStore | app/sentinel/internal/safe/post.go:47-56 | a name that spells a store selects that store; any other string selects the configured default |
| SentinelPost.DecideSecretFormat | app/sentinel/internal/safe/post.go:58-67 | Yaml is chosen exactly when the format spells "yaml"; otherwise Json |
| SentinelPost.DecideOfNameRoundTrip | app/sentinel/internal/safe/post.go:47-67 | deciding on an enum's own spelling gives that enum back, whatever the default |
| SentinelPost.NewSecretUpsertRequest | app/sentinel/internal/safe/post.go:82-110 | every field is copied except that the enums are decided; empty validity bounds become "now" and "never"; the bounds are never empty, and non-empty ones pass through |
| SentinelPost.UpsertDefaultingIdempotent | app/sentinel/internal/safe/post.go:82-110 | rebuilding a request from a built request's own fields gives the same request |
| SentinelPost.KeysFromInput | app/sentinel/internal/safe/post.go:298-304 | a keys request is built exactly when the input has two line breaks; its three fragments have no line breaks and joined by line breaks they give the input |
| SentinelPost.KeysRoundTrip | app/sentinel/internal/safe/post.go:298-304 | three line-free fragments, joined and then split, give the same keys request back |
| SentinelPost.ResolveSecret | app/sentinel/internal/safe/post.go:315-326 | a secret without the marker is unchanged; otherwise the text after the marker goes to the generator, and a generator failure yields "ParseError:" followed by that text |
| SentinelPost.MarkerStrippedOnce | app/sentinel/internal/safe/post.go:316-319 | only one marker is removed: the generator receives everything after the first marker |
| SentinelPost.GeneratedSecretScenario | app/sentinel/internal/safe/post.go:315-326 | with marker "gen:", "gen:alnum:12" is sent as the value generated for "alnum:12" |
| SentinelPost.EmptyMarkerGeneratesEverything | app/sentinel/internal/safe/post.go:316-326 | with an empty marker, every secret is treated as a generation pattern |
| SentinelPost.SecretRequest | app/sentinel/internal/safe/post.go:328-356 | the secret request goes to the secrets path, as a DELETE iff the command deletes. Its body carries the resolved secret as value and the command's workload id, namespaces, template and flags. The backing store and format are decided from the command's strings, and empty validity bounds become "now" and "never" |
| SentinelPost.DeleteDiffersOnlyInVerb | app/sentinel/internal/safe/post.go:341-356 | a delete and an upsert of the same command send the same body to the same path and differ only in the verb |
| SentinelPost.AcquisitionFailure | app/sentinel/internal/safe/post.go:257-280 | the command stops unless the source was acquired and the acquirer said to proceed |
| SentinelPost.Post | app/sentinel/internal/safe/post.go:239-358 | on acquisition failure nothing is sent. A non-empty key triple takes priority: a bad endpoint URL or a line count other than three abandons it; otherwise the keys request is POSTed to the keys path and recombines to the input. Without keys, the secret request is sent, or abandoned when the URL is bad |
| SentinelPost.PostInitializationComplete | app/sentinel/internal/safe/post.go:171-237 | on acquisition failure nothing is sent; otherwise the empty init-completed marker is POSTed to its path, or abandoned when the URL is bad |
| Audit.DefaultJournalEntry | app/safe/internal/server/route/receive.go:24 | the opening entry carries the correlation id, caller and request line, no entity, and the Enter event |
| ReceiveRoute.TrimmedKeys | app/safe/internal/server/route/receive.go:53-55 | each fragment is stored with no white space at either end |
| ReceiveRoute.OpeningEntry | app/safe/internal/server/route/receive.go:24-26 | the first journal entry holds an empty key input request and the Enter event for this caller and correlation id |
| ReceiveRoute.FragmentsPresent | app/safe/internal/server/route/receive.go:53-57 | the emptiness test on the trimmed fragments passes exactly when no fragment is empty or all white space |
| ReceiveRoute.CountKeyLines | app/safe/internal/server/route/receive.go:63 | the combined key has the fragments' own line breaks plus two |
| ReceiveRoute.KeyLinesWellFormed | app/safe/internal/server/route/receive.go:57-63 | three non-empty trimmed fragments combine into a well-formed key: non-empty, at least two line breaks, trimmed |
| ReceiveRoute.CombinedMasterKey | app/safe/internal/server/route/receive.go:53-63 | the key a complete delivery stores (the trimmed fragments, one per line) is well formed: non-empty, at least two line breaks, no white space at either end |
| ReceiveRoute.TrimmedFragmentsStoredVerbatim | app/safe/internal/server/route/receive.go:53-63 | non-empty fragments that are already trimmed pass the check and are stored as given, one per line |
| ReceiveRoute.SafeProcess.constructor | app/safe/internal/server/route/receive.go:64 | a fresh process holds no key and no journal, and satisfies the register invariant |
| ReceiveRoute.SafeProcess.SetMasterKey | app/safe/internal/server/route/receive.go:64 | the register is replaced by the new key, and the write is counted |
| ReceiveRoute.SafeProcess.Log | app/safe/internal/server/route/receive.go:26 | the entry is appended to the journal |
| ReceiveRoute.SafeProcess.ReceiveKeys | app/safe/internal/server/route/receive.go:23-74 | keeps the register invariant: the register is empty or holds a key that some complete delivery produces. A non-Sentinel caller journals Enter then BadSvid. An unreadable or undecodable body journals BadPayload with the empty entity. An empty fragment journals BadPayload with the decoded request. In each of these cases the key is untouched. A complete delivery writes the trimmed, newline-joined key exactly once, answers "OK" and journals only the opening entry |
| KeyDelivery.StoredKeyRecoversFragments | app/safe/internal/server/route/receive.go:63 | when the trimmed fragments are line-free, splitting the stored key as Sentinel splits its input gives them back in order |
| KeyDelivery.DeliveryPreservesInput | app/sentinel/internal/safe/post.go:298-304 | an operator triple of non-empty, trimmed, single-line fragments is sent unchanged, accepted by Safe, and stored exactly as the operator typed it |
| KeyDelivery.SentinelForwardsWhatSafeRejects | app/sentinel/internal/safe/post.go:298-304 | Sentinel sends a triple with an empty first fragment, and Safe rejects it |

## Left out

- The identity-source race (`acquireSource`, the goroutine, the channels, the timeout context and closing the source): it is the `Acquisition` input, one of deadline exceeded, cancelled, or acquired with a proceed flag.
- The mTLS client, `tlsconfig`, `doPost`, `doDelete` and `respond`: the model ends at the request handed to the client (path, verb and body) and does not model sending or the response.
- The authorizer's rule is `SentinelPost.Authorize`. The handshake that applies it to Safe's certificate is not modelled, so `Post`'s outcome does not record which peer the client would accept.
- `url.JoinPath`: whether Safe's endpoint URL joins with a path is the `endpointUrlValid` flag. The joined URL itself is not modelled; the path is.
- `json.Marshal` and the JSON decoding in `unmarshalKeyInputRequest`: marshalling the request structs is treated as never failing. `ReceiveKeys` takes the decoded request (or None) as an input.
- `crypto.GenerateValue`: it is the `generate` parameter, a function from pattern to value or failure. The pattern language is not modelled. Because `generate` is a fixed function, the model fixes one draw of the random generator. SentinelPost.DeleteDiffersOnlyInVerb's "same body" therefore holds only for that fixed draw: two separate runs of the real generator produce different values.
- Environment lookups (`SentinelSpiffeIdPrefix`, `SafeSpiffeIdPrefix`, `WorkloadSpiffeIdPrefix`, `SafeEndpointUrl`, `SecretGenerationPrefix`, `SafeBackingStore`, `SafeSourceAcquisitionTimeout`): these are parameters.
- SentinelPost.DecideBackingStore: the configured default is one of the two stores. The environment's own parsing of that setting is not part of this model.
- `createDefaultJournalEntry`, `isSentinel`, `readBody` and `unmarshalKeyInputRequest` of the route package are not part of this model:
  - the default entry is taken to carry the correlation id, caller, request method and URL, and the Enter event;
  - `isSentinel` is taken to be `Validation.IsSentinel` on the caller's id;
  - the body reader's result is the `body` input.
- The HTTP error responses these helpers write are not modelled.
- Entity: the string spellings of the enums ("file", "memory", "json", "yaml") are taken from the data package, which is not part of this model.
- Logging (`log.DebugLn`, `logger.ErrorLn`, `printEndpointError`, `printPayloadError`) and the error from `io.WriteString` are not modelled; the handler's write of "OK" is its result.
- ReceiveRoute.SafeProcess.ReceiveKeys: `state.SetMasterKey` is modelled as a plain register write. Its own locking and any reaction to the key are outside the model.
- Concurrency between handlers is not modelled: each `ReceiveKeys` call runs alone on the process state.
- GoStrings.TrimSpace: `unicode.IsSpace` is modelled over code points. Invalid UTF-8 is not modelled, because strings are sequences of characters.
- The fields of `SentinelCommand` that `Post` does not read are not part of the model.
- ReceiveRoute.SafeProcess.ReceiveKeys: its postconditions fix the journal exactly. Each rejection adds the opening entry and one rejection entry; a success adds only the opening entry. That rests on two assumptions about the unseen helpers `isSentinel`, `readBody` and `unmarshalKeyInputRequest`, which receive the entry (receive.go lines 28, 36 and 43). First, they are assumed not to journal entries of their own. Second, when the caller is not Sentinel, no body is read or decoded. In the model this second point shows only in that the non-Sentinel postcondition does not depend on `body` or `decoded`.
