# object-storage-gateway, modelled in Dafny

The object storage gateway is a small HTTP front end for a cluster of MinIO
storage nodes. A client sends `GET /object/<id>` or `PUT /object/<id>`. The
handler checks the route and the object ID, then passes the call to a
gateway. The gateway finds the node that holds the object and keeps an
in-memory cache from object ID to node. A new object goes to a node picked at
random. Writes are "sticky": an object that already exists anywhere is
overwritten where it is.

The repository holds several generations of the same design side by side. Each
one is modelled as written, in its own module:

- `RootGateway` is the first gateway. Its `Client` talks straight to MinIO and
  has its own `readKeys` and `pickStorage`.
- `PkgGateway` is the second gateway. Its `Gateway` works through
  finder/controller ports.
- `Placement` is the deterministic placement that the tests of that package
  pin down: `hash`, `readSortedMapKeys`, and `pickStorageInstance` as
  `keys[hash mod n]`.
- Three restful handlers: `InternalRestfulHandler` (with `contentSize`),
  `PkgRestfulHandler`, and `InternalRestfulRest`, the oldest, which writes the
  status before the Content-Type.
- The two httphandlers, as `HttpHandlers`. They are one code shape with the
  route prefix as a parameter.
- Their shared helpers: `RestRoute`/`HttpRoute` (`knownRoute`,
  `readObjectID`), `HeaderLog` (`concatHeaders`), the two ID validators
  (`AlnumIdValidator`, `UpperIdValidator`), and `Docker`
  (`readAccessCredentialsFromEnv`).
- `HttpModel` models what net/http sends for a sequence of `Header().Set`,
  `WriteHeader` and `Write` calls:
  - the head is committed at the first `WriteHeader` or `Write`;
  - a Content-Type set after that point is never sent;
  - a handler that writes nothing answers 200.

  This is what makes visible the difference between the error writers that set
  the Content-Type first and those that write the status first.

How each part is modelled:

- **Environment.** Every call into code outside the core is part of an
  environment value passed to the operation: the node finder, the
  connection-details reader, the connection factory, and the MinIO and storage
  operations. Each one is a total function of its arguments, so a second call
  with the same arguments gives the same answer. The one place where a call
  connects twice to a node is `Write`'s placement of a new object, which opens
  a new connection to a node already probed; that connection has its own
  details reply and factory outcome (`laterDetails`/`laterFactory` in
  `PkgGateway.Cluster`, `laterLookup`/`laterFactory` in `RootGateway.Nodes`, read
  through `Later`). Each gateway
  operation returns the ordered trace of the calls it made, so lemmas can say
  which nodes were contacted and in what order.
- **Cache.** The gateways are classes whose field `cache` is the Go map
  `cacheObjectLocation`.
- **Specifications.** `Read` and `Write` are loops, each proved equal to a
  recursive specification function over the instance list (`ReadSpec`,
  `WriteSpec`). The lemmas are proved about those functions.
- **Random pick.** The random pick is a `ghost` out-parameter `target`. The
  specifications are stated for every possible target.
- **Panics.** A Go run-time panic is part of the outcome: `Handled.panics`,
  `Exit.Panic`, `Outcome.IndexOutOfRange`, and `None` from `concatHeaders`.

## Model

| member | source | states |
|---|---|---|
| `GoStrings.TrimPrefix` | internal/restfulhandler/handler.go:152 | one leading copy of the prefix is removed when present; otherwise the string is unchanged |
| `GoStrings.TrimRightSlash` | internal/restfulhandler/handler.go:155-159 | the result is the longest prefix of the input that does not end in '/'; only '/' characters are removed |
| `GoStrings.TrimLeftSlash` | internal/restfulhandler/handler.go:161-165 | the result is the longest suffix that does not start with '/'; only '/' characters are removed |
| `GoStrings.TrimRightSlashIdempotent` | httphandler.go:72-78 | trimming trailing '/' a second time changes nothing |
| `GoStrings.TrimRightSlashOf` | internal/restfulhandler/handler.go:155-159 | trailing '/' after a string that does not end in '/' are exactly what is cut |
| `GoStrings.TrimLeftSlashOf` | internal/restfulhandler/handler.go:161-165 | leading '/' before a string that does not start with '/' are exactly what is cut |
| `IdPattern.RepeatMatchIff` | internal/validator/objectid.go:8 | the anchored `^[C]{lo,hi}$` matches exactly the strings of `lo` to `hi` characters, all in class C |
| `AlnumIdValidator.ValidateInputObjectID` | internal/validator/objectid.go:8-16 | nil exactly for 1 to 32 ASCII letters and digits; every rejection is the error "id is not valid" (the same regex and message are in pkg/restfulhandler/validator-objectid.go and internal/restfulhandler/rest.go) |
| `AlnumIdValidator.RejectsForeign` | internal/restfulhandler/validateinputobjectid_test.go:43-70 | an empty ID, one over 32 characters, or one with a character outside `[a-zA-Z0-9]` is rejected |
| `UpperIdValidator.ValidateObjectID` | validator.go:8-16 | nil exactly for 1 to 32 upper-case ASCII letters and digits; every rejection is "id is not valid" |
| `UpperIdValidator.RejectsLowercase` | validator.go:8 | any lower-case letter makes the ID invalid |
| `UpperIdValidator.StricterThanAlnum` | validator.go:8 | every ID this validator accepts, the alphanumeric one accepts too; "foo" shows that the converse fails |
| `Strconv.SplitSign` | internal/restfulhandler/handler.go:115 | an optional leading '+' or '-' is removed, and the result records whether it was '-' |
| `Strconv.ParseInt64` | internal/restfulhandler/handler.go:115 | a value exists only for a sign followed by at least one decimal digit, and only within the signed 64-bit range; "" is an error |
| `Strconv.NatDigits` | internal/restfulhandler/handler.go:115 | non-empty, all decimal digits, and their value is the number |
| `Strconv.ParseFormatInt` | internal/restfulhandler/handler.go:115 | parsing the decimal text of any 64-bit value gives that value back |
| `Strconv.ParseOutOfRange` | internal/restfulhandler/handler.go:115-117 | the decimal text of a number outside the 64-bit range is an error |
| `Strconv.ParseRejectsSyntax` | internal/restfulhandler/handler.go:115-117 | "", a lone sign, and trailing non-digits are errors |
| `HttpModel.ErrorHeaderFirst` | internal/restfulhandler/handler.go:170-174 | the client receives the status code, `application/json`, and the body `{"error":"<msg>"}` (the same writer is in pkg/gateway/restfulhandler/rest.go) |
| `HttpModel.ErrorStatusFirst` | internal/restfulhandler/rest.go:134-138 | the client receives the status and the JSON error body but no Content-Type, because the header is set after the head is committed (the same writer is in both httphandlers) |
| `HttpModel.HeaderThenStatus` | internal/restfulhandler/handler.go:80-83 | a Content-Type set before `WriteHeader` is sent with that status and the body |
| `HttpModel.StatusThenHeader` | httphandler.go:39-42 | a Content-Type set after `WriteHeader` is lost; the status and the body still go out |
| `HttpModel.HeaderThenStatusNoBody` | pkg/gateway/restfulhandler/rest.go:89-91 | a Content-Type set before the status is sent even when no body follows |
| `HttpModel.StatusThenHeaderNoBody` | httphandler.go:39-40 | a Content-Type set after the status is lost when no body follows |
| `HttpModel.StatusOnly` | internal/restfulhandler/handler.go:104 | a bare `WriteHeader(code)` answers that code with no Content-Type and no body |
| `HttpModel.NothingWrittenIsOK` | httphandler.go:49-56 | a handler that writes nothing answers 200 with no body |
| `HttpModel.HeaderGet` | internal/restfulhandler/handler.go:115 | `Header.Get` gives "" for a missing key, otherwise the first value of the key's first entry ("" if it has none) |
| `HeaderLog.KeyPairs` | internal/restfulhandler/handler.go:128-133 | one `k=v` entry per value of the key, in the order of the values |
| `HeaderLog.ConcatHeaders` | internal/restfulhandler/handler.go:122-137 | the nested loop's result equals `ConcatSpec`: "" for an empty header; a panic (`None`) when there are keys but no values; otherwise every `k=v` joined by "," with no trailing "," (the same code is in pkg/gateway/restfulhandler/rest.go) |
| `HeaderLog.TerminatedJoin` | internal/restfulhandler/handler.go:135-136 | the builder holds the joined entries followed by exactly one ",", so cutting the last byte leaves the join |
| `HeaderLog.TerminatedEmpty` | internal/restfulhandler/handler.go:135-136 | the builder is empty exactly when no entry was written |
| `HeaderLog.PairsContents` | internal/restfulhandler/handler.go:127-134 | one entry per value over all keys, and every `k=v` of the header appears |
| `HeaderLog.PairsSound` | internal/restfulhandler/handler.go:127-134 | every entry is a key, "=", and one of that key's values |
| `HeaderLog.NoValues` | internal/restfulhandler/handler.go:127-134 | the value count is zero exactly when every key has an empty value list |
| `HeaderLog.ConcatPanicsIff` | internal/restfulhandler/handler.go:123-136 | `concatHeaders` panics exactly when the header has keys but not a single value |
| `HeaderLog.ConcatSingle` | internal/restfulhandler/handler.go:122-137 | one key with one value is logged as `k=v` |
| `HeaderLog.SplitJoin` | internal/restfulhandler/handler.go:129-136 | splitting the log string at "," gives back the entries when none of them contains "," |
| `RestRoute.ReadObjectID` | internal/restfulhandler/handler.go:151-168 | the ID never starts or ends with '/' and is no longer than the path (the same code is in pkg/gateway/restfulhandler/rest.go and internal/restfulhandler/rest.go) |
| `RestRoute.ReadObjectIDOf` | internal/restfulhandler/handler.go:151-168 | "/object", any run of '/', an ID without '/' at either end, then any run of '/': the ID comes back unchanged |
| `RestRoute.KnownRouteExamples` | internal/restfulhandler/handler_test.go:86-205 | "/object/bAr1" and "/objectX" are known routes and "/foo/bar1" is not |
| `RestRoute.ReadObjectIDPlain` | internal/restfulhandler/handler_test.go:86 | "/object/bAr1" gives the ID "bAr1" |
| `RestRoute.ReadObjectIDSlashes` | internal/restfulhandler/handler_test.go:221 | "/object////-!#///" gives the ID "-!#" |
| `HttpRoute.ReadObjectID` | httphandler.go:68-81 | the ID does not end in '/' and is a prefix of the path with the route prefix removed; leading '/' stay |
| `HttpRoute.SecondTrimIsNoOp` | httphandler.go:72-78 | the second `TrimRightFunc` changes nothing |
| `HttpRoute.KnownRouteID` | httphandler.go:64-81 | because `HasPrefix` has its arguments reversed, a known path is a prefix of the route prefix, and its ID is "" or a prefix of the route prefix |
| `HttpRoute.LeadingSlashKept` | httphandler.go:68-81 | an ID that follows the prefix keeps its leading '/' |
| `HttpRoute.SlashPathUnknown` | internal/httphandler/httphandler.go:77-79 | a path starting with '/' is unknown when the prefix does not start with '/' |
| `InternalRestfulHandler.ContentSize` | internal/restfulhandler/handler.go:114-120 | the value whenever the Content-Length parses as a base-10 int64 (sign and leading zeros allowed), otherwise -1 |
| `InternalRestfulHandler.ContentSizeOf` | internal/restfulhandler/handler.go:114-120 | a Content-Length holding the decimal text of a 64-bit value gives that value |
| `InternalRestfulHandler.ContentSizeFallback` | internal/restfulhandler/handler.go:116-118 | a missing or out-of-range Content-Length gives -1 |
| `InternalRestfulHandler.ServeHTTP` | internal/restfulhandler/handler.go:44-112 | panics exactly when `concatHeaders` does; storage is called only for an admitted request, with the ID taken from the path; read iff GET; write iff PUT with a body, passing `contentSize` |
| `InternalRestfulHandler.RejectsBeforeStorage` | internal/restfulhandler/handler.go:52-63 | unknown route: 400 "route cannot be handled"; invalid ID: 422 "id is not valid"; both with the JSON Content-Type |
| `InternalRestfulHandler.GetOutcomes` | internal/restfulhandler/handler.go:66-88 | read error: 500; not found or a nil stream: 404; otherwise 200 `application/octet-stream` with the stream as the body |
| `InternalRestfulHandler.PutOutcomes` | internal/restfulhandler/handler.go:90-105 | nil body: 400; write error: 500; otherwise 201 with no body |
| `InternalRestfulHandler.OtherMethodRejected` | internal/restfulhandler/handler.go:107-110 | any other method is 405 "method not allowed" |
| `InternalRestfulHandler.PanicsOnValuelessHeader` | internal/restfulhandler/handler.go:45-50 | the handler panics exactly on a non-empty header with no values at all |
| `PkgRestfulHandler.ServeHTTP` | pkg/gateway/restfulhandler/rest.go:48-122 | as above, but it also panics on a found object with a nil stream (in `io.Copy`), and the write passes no size |
| `PkgRestfulHandler.RejectsBeforeStorage` | pkg/gateway/restfulhandler/rest.go:56-67 | 400 or 422 with the JSON Content-Type, with no storage call |
| `PkgRestfulHandler.GetOutcomes` | pkg/gateway/restfulhandler/rest.go:70-96 | error: 500; `!found`: 404; found: 200 `application/octet-stream` with the stream as the body; found with a nil stream: the run panics in `io.Copy`, so no response is stated |
| `PkgRestfulHandler.PutOutcomes` | pkg/gateway/restfulhandler/rest.go:98-115 | nil body: 400; write error: 500; otherwise 201 |
| `PkgRestfulHandler.OtherMethodRejected` | pkg/gateway/restfulhandler/rest.go:117-121 | 405 with the JSON Content-Type |
| `InternalRestfulRest.ServeHTTP` | internal/restfulhandler/rest.go:36-101 | no header log; panics exactly on an admitted GET whose found object has a nil stream; the same storage-call clauses as above |
| `InternalRestfulRest.RejectsBeforeStorage` | internal/restfulhandler/rest.go:37-48 | 400 or 422, each without a Content-Type |
| `InternalRestfulRest.GetOutcomes` | internal/restfulhandler/rest.go:51-75 | 500 or 404 without a Content-Type; found: 200 `application/octet-stream` with the stream as the body; found with a nil stream: the run panics in `io.Copy` |
| `InternalRestfulRest.PutOutcomes` | internal/restfulhandler/rest.go:77-94 | 400, 500 or 201, the errors without a Content-Type |
| `InternalRestfulRest.OtherMethodRejected` | internal/restfulhandler/rest.go:96-100 | 405 without a Content-Type |
| `HttpHandlers.ServeHTTP` | httphandler.go:16-62 | storage is called only for an admitted request, with its ID; read iff GET; write iff PUT; panics exactly on an admitted GET with a nil stream (deferred `Close` or `io.Copy`) or an admitted PUT with a nil body (deferred `Close`) |
| `HttpHandlers.RejectsBeforeStorage` | httphandler.go:17-26 | unknown route: 400; an ID rejected by `ValidateObjectID`: 422; each without a Content-Type |
| `HttpHandlers.GetOutcomes` | httphandler.go:29-47 | a nil stream panics (the deferred `data.Close()`, and on the 200 path `io.Copy` first), so no response is stated; otherwise only a not-found error is 404, and any other outcome, another read error included, is 200 with no Content-Type (it is set after the status) and the stream as the body |
| `HttpHandlers.PutOutcomes` | httphandler.go:49-56 | write error: 500 "server error"; success writes nothing, which is 200 with no body |
| `HttpHandlers.OtherMethodRejected` | httphandler.go:58-60 | 405 "method not allowed" |
| `HttpHandlers.LowercasePrefixAdmitsNothing` | internal/httphandler/httphandler.go:77-94 | with a prefix starting with a lower-case letter, no request passes both the route and the ID check |
| `HttpHandlers.InternalRejectsEverything` | internal/httphandler/httphandler.go:13-75 | with the prefix "object" set by `NewHandler`, every request is answered 400 or 422, with no storage call and no panic; every path starting with '/' gets 400 |
| `Docker.SplitN2` | internal/docker/docker.go:109 | one element (the input, which has no '=') or two (the text before the first '=' and everything after it) |
| `Docker.SplitKeyValue` | internal/docker/docker.go:109 | `k=v` with no '=' in `k` splits into `k` and all of `v` |
| `Docker.ReadAccessCredentialsFromEnv` | internal/docker/docker.go:102-120 | the loop's result equals the recursive scan `Scan` from empty credentials, its early `break` included |
| `Docker.SwappedKeys` | internal/docker/docker.go:111-116 | MINIO_SECRET_KEY's value becomes `accessKeyID` and MINIO_ACCESS_KEY's becomes `secretAccessKey` |
| `Docker.CompleteIsFinal` | internal/docker/docker.go:104-107 | once both results are non-empty, nothing later is looked at |
| `Docker.LaterOverrides` | internal/docker/docker.go:111-116 | while either key is unset, an entry `MINIO_SECRET_KEY=v` sets the access key ID to v and `MINIO_ACCESS_KEY=v` sets the secret to v, whatever they held, and the scan goes on with the rest; so a later entry overrides an earlier one |
| `Docker.LaterOverridesTwice` | internal/docker/docker.go:111-116 | of two leading `MINIO_SECRET_KEY` entries, the second one's value is the access key ID |
| `Docker.LaterDuplicatesIgnored` | internal/docker/docker.go:103-107 | after both keys are found, later duplicates are ignored |
| `Docker.MissingKeyUntouched` | internal/docker/docker.go:102-120 | a key that never appears leaves its result as it was |
| `Docker.NoPanicWithEquals` | internal/docker/docker.go:109-116 | an environment list whose every entry holds '=' never panics |
| `Docker.SplitNoEquals` | internal/docker/docker.go:109 | an entry without '=' is not split: `SplitN` returns it alone |
| `Docker.BareEntryPanics` | internal/docker/docker.go:109-116 | while a result is still empty, a recognised key with no '=' indexes `els[1]` of a one-element slice and panics |
| `Docker.BareKeyPanics` | internal/docker/docker.go:109-116 | a first entry "MINIO_SECRET_KEY" or "MINIO_ACCESS_KEY" with no '=' panics |
| `Placement.HashConcat` | pkg/gateway/gateway_test.go:246-284 | the hash of a concatenation is the sum of the hashes |
| `Placement.HashBound` | pkg/gateway/gateway_test.go:246-284 | the hash is at most the length times the largest code point |
| `Placement.ValidIdHashIsSmall` | pkg/gateway/gateway_test.go:246-284 | a valid object ID hashes to at most 3904, so the `int` sum cannot overflow |
| `Placement.LessIrreflexive` | pkg/gateway/gateway_test.go:199-244 | Go's string `<` is irreflexive |
| `Placement.LessTransitive` | pkg/gateway/gateway_test.go:199-244 | Go's string `<` is transitive |
| `Placement.LessTotal` | pkg/gateway/gateway_test.go:199-244 | any two different strings are ordered |
| `Placement.LessAsymmetric` | pkg/gateway/gateway_test.go:199-244 | no two strings are each less than the other |
| `Placement.InsertPermutation` | pkg/gateway/gateway_test.go:199-244 | insertion adds exactly the one element |
| `Placement.SortKeysPermutation` | pkg/gateway/gateway_test.go:199-244 | `readSortedMapKeys` is a permutation of the keys |
| `Placement.InsertSorted` | pkg/gateway/gateway_test.go:199-244 | inserting a new element into an ascending list keeps it ascending |
| `Placement.SortKeysSorted` | pkg/gateway/gateway_test.go:199-244 | distinct map keys come out strictly ascending |
| `Placement.SortedUnique` | pkg/gateway/gateway_test.go:199-244 | two strictly ascending lists with the same elements are equal |
| `Placement.SortKeysOrderIndependent` | pkg/gateway/gateway_test.go:199-244 | the sorted key list does not depend on the map's iteration order |
| `Placement.PickIsMember` | pkg/gateway/gateway_test.go:286-352 | the pick is "" for no instances, otherwise one of the instances |
| `Placement.PickIgnoresDiscoveryOrder` | pkg/gateway/gateway_test.go:286-352 | for a fixed instance set and object ID, the pick does not depend on discovery order |
| `Placement.PickSingleton` | pkg/gateway/gateway_test.go:286-352 | a single instance is always picked |
| `Placement.TestCases` | pkg/gateway/gateway_test.go:199-352 | the expected values of the hash, key-sorting and pick tests |
| `PkgGateway.Connect` | pkg/gateway/gateway.go:155-163 | a details-read error is returned as it is; otherwise the factory's result for those details |
| `PkgGateway.PickStorageInstance` | pkg/gateway/gateway.go:166-176 | the counter walk stops at the drawn index `pick` and returns the instance visited there, so one of the instances |
| `PkgGateway.Gateway.constructor` | pkg/gateway/gateway.go:13-36 | the cache starts empty |
| `PkgGateway.Gateway.Read` | pkg/gateway/gateway.go:57-94 | the reply, the new cache, and the call trace equal `ReadSpec` on the old cache |
| `PkgGateway.Gateway.Write` | pkg/gateway/gateway.go:97-153 | the error, the new cache, and the trace equal `WriteSpec` on the old cache for the picked target; when the pick is reached, the target is a discovered instance; the placement connects through `Later`, so it can fail after a clean probe |
| `PkgGateway.CacheHitIsLocal` | pkg/gateway/gateway.go:60-68 | on a cache hit, Read and Write (lines 101-109) connect only to the cached instance, never ask the finder, return its reply or error, and keep the cache |
| `PkgGateway.EmptyClusterFails` | pkg/gateway/gateway.go:75-78 | a miss with no instances fails with "cannot identify storage instances, check if cluster is running" in Read and in Write (lines 116-118) |
| `PkgGateway.ReadScanNoneFound` | pkg/gateway/gateway.go:81-93 | when every connection succeeds and no instance finds the object, the scan leaves the cache unchanged |
| `PkgGateway.ReadScanLastFound` | pkg/gateway/gateway.go:81-93 | when every connection succeeds, the cache ends at the last instance that found the object |
| `PkgGateway.ReadScanVisitsAll` | pkg/gateway/gateway.go:81-93 | when every connection succeeds, the scan visits every instance; the reply is the last instance's, and the cache ends at the last instance that found the object |
| `PkgGateway.ReadMissVisitsAll` | pkg/gateway/gateway.go:70-93 | Read on a miss does not stop at a hit or at a read error: the last instance's reply is returned |
| `PkgGateway.ReadScanStops` | pkg/gateway/gateway.go:81-85 | the scan stops at the first connection error, keeping the previous instance's data and found flag |
| `PkgGateway.ReadConnectFailureStops` | pkg/gateway/gateway.go:81-85 | Read on a miss returns the first connection error at once |
| `PkgGateway.ReadScanFrame` | pkg/gateway/gateway.go:89-91 | the scan changes only the entry of the ID, and only to an instance that found it |
| `PkgGateway.DetectScanSkips` | pkg/gateway/gateway.go:122-137 | instances that connect and report the object absent are passed over, in order |
| `PkgGateway.WriteFirstDetected` | pkg/gateway/gateway.go:132-136 | the first instance reporting the object gets the write, and the cache points there even if the write fails |
| `PkgGateway.WriteProbeFailureAborts` | pkg/gateway/gateway.go:124-131 | a connection or `Detected` error during the probe is returned, with no write and the cache unchanged |
| `PkgGateway.WriteUndetectedPlaces` | pkg/gateway/gateway.go:139-152 | the object is found nowhere: every instance is probed, then the target gets a new connection, whose own failure is returned with the cache unchanged; otherwise the target is written, and the cache learns the target only on success |
| `PkgGateway.DetectScanFrame` | pkg/gateway/gateway.go:122-137 | the probe changes only the entry of the ID, and only to a probed instance |
| `PkgGateway.CacheFrame` | pkg/gateway/gateway.go:57-153 | Read and Write change only the entry of the ID; a new entry names an instance that found or reported the object, or the successfully written target |
| `PkgGateway.SuccessfulWriteSticks` | pkg/gateway/gateway.go:97-153 | after a successful Write, the next Read and the next Write go straight to the stored instance, whatever the cluster then reports |
| `RootGateway.NewStorageConnection` | gateway.go:58-69 | details are looked up by the node's own label; a lookup error or a missing entry is returned without calling the factory |
| `RootGateway.ReadAt` | gateway.go:112-118 | a connection error gives no data and that error; otherwise the `GetObject` reply |
| `RootGateway.ExistsAt` | gateway.go:179-192 | exists iff `GetObjectACL` succeeds; a not-found answer is absence without error; other errors are passed on |
| `RootGateway.WriteAt` | gateway.go:158-177 | a put happens only after the bucket is known to exist or has been created; check and creation errors carry their message prefixes |
| `RootGateway.ReadKeys` | gateway.go:19-26 | the index is never advanced: the slice has the map's length, slot 0 holds the last key its own `range` visits, and every other slot is "" |
| `RootGateway.PickStorage` | gateway.go:194-196 | the pick is an element of the host list |
| `RootGateway.Client.constructor` | gateway.go:32-43 | the host prefix is stored and the cache starts empty |
| `RootGateway.Client.SetObjectLocation` | gateway.go:151-156 | only the entry of the ID is set, to the host |
| `RootGateway.Client.Read` | gateway.go:71-110 | the reply, the new cache, and the trace equal `ReadSpec` on the old cache |
| `RootGateway.Client.Write` | gateway.go:120-149 | the exit and the trace equal `WriteSpec`, and the cache is never changed; when the pick is reached, the target is the last key the `range` of `readKeys` visits, or "" when there are at least two keys; when both ranges visit the same keys, the target is one of the hosts, or ""; the placement's `write` connects through `Later`, so it can fail after the probe connected |
| `RootGateway.ReadHit` | gateway.go:72-86 | on a hit only the cached host is read and the cache is kept; a not-found error becomes found false with no error |
| `RootGateway.ReadScanStops` | gateway.go:95-105 | the scan stops at the first host that returns data (recorded, found) or a non-not-found outcome (returned, found false) |
| `RootGateway.ReadScanExhausted` | gateway.go:95-109 | when every host reports not found, the result is (nil, false, nil) and the cache is kept |
| `RootGateway.ReadMissStops` | gateway.go:88-105 | Read on a miss lists the hosts once and stops at the first deciding host |
| `RootGateway.ReadMissExhausted` | gateway.go:88-109 | Read on a miss where no host has the object returns (nil, false, nil) |
| `RootGateway.ReadScanFrame` | gateway.go:95-101 | the scan changes only the entry of the ID, and only to a listed host |
| `RootGateway.ReadCacheFrame` | gateway.go:71-110 | Read changes only the entry of the ID, and only to a listed host |
| `RootGateway.ProbeSkips` | gateway.go:133-143 | hosts reported absent are passed over, in order |
| `RootGateway.ProbeTraceChecksNoBucket` | gateway.go:179-192 | the existence probe never checks or creates a bucket |
| `RootGateway.WriteHit` | gateway.go:121-124 | Write on a hit is `write` to the cached host |
| `RootGateway.WriteProbeErrorAborts` | gateway.go:133-137 | the first existence-probe error is returned with no write |
| `RootGateway.WriteFirstExisting` | gateway.go:138-142 | the first host holding the object gets `PutObject` on the probe's connection, with no bucket check, and no later host is asked |
| `RootGateway.WriteNoneExisting` | gateway.go:145-148 | no host holds the object: every host is probed, then the picked host is written over a new connection (`WriteAt(Later(n), target)`); when `readKeys` visits no key, `rand.Intn(0)` panics after the probe, and for a real map (both ranges visit the same keys) an empty host map panics with only the lookup traced |
| `RootGateway.EmptyLabelWriteFails` | gateway.go:19-26 | picking one of the "" slots sends the write to a label unknown to the details reader, which fails before any bucket check |

## Left out

- `Main`, logging, configuration and the servers (main.go, cmd/, pkg/gateway/config.go): not part of the core; every `slog` call is dropped.
- Concurrency: the unsynchronised cache (pkg/gateway/gateway.go:49-53) is modelled one call at a time.
- Docker discovery (`NewClient`, `ClientAdapter.Read`), the MinIO adapters (minio.go, internal/minio/minio.go, pkg/gateway/minio.go), and the port interfaces: they are calls into outside code and are environment functions here. `IsNotFoundError` (minio.go:80-87) is kept as the `notFound` flag of an error.
- The `isNotFoundError` of the first gateway, the `ValidateObjectID`/`IsNotFoundError` the root httphandler calls, and the `gateway.ValidateObjectID`/`gateway.IsNotFoundError` that internal/httphandler imports are not part of this model. They are taken to be validator.go's and minio.go's; `HttpHandlers.InternalRejectsEverything` and `HttpHandlers.LowercasePrefixAdmitsNothing` rest on that.
- httphandler.go never sets `commonPrefix` itself, so the prefix is a parameter of `HttpHandlers`.
- The bucket name "store", `context.Context`, and the instance selector passed to the finder: they are not inspected by the core.
- Streams are opaque: no byte of an object is modelled. The PUT request body is not passed to the store model. Errors from `io.Copy` and `Close`, and the 500 "server error" written after a failed copy, are not modelled.
- What a client receives after a run-time panic (net/http recovers it and closes the connection).
- Content sniffing: net/http may add a Content-Type of its own for a body written without one. `Response.contentType` only records what the handler set in time.
- `Header.Get`/`Values` canonicalise the key. The model assumes the header keys are already canonical, as net/http delivers them.
- The root gateway_test.go: its behaviour is covered by the lemmas on `RootGateway`, but it is not modelled case by case.
- `RootGateway.HostMap`: the model does not require its two key orders and its details map to agree, so its results hold for any such triple; where a result needs the two orders to hold the same keys, it says so with `SameKeys`.
- `Placement.Hash`: the hash is an unbounded sum. `Placement.ValidIdHashIsSmall` shows that no valid ID comes near Go's `int` limit.
- `PkgGateway.PickStorageInstance` and `RootGateway.PickStorage`: the random number is any valid index. The uniform distribution is not modelled.
- Both connection factories (`RootGateway.Nodes.factory` and `PkgGateway.Cluster.factory`) return only an optional error, so a factory that returns neither a connection nor an error, after which the next method call on the nil connection panics, is not modelled.
- `Placement`: the implementation's `pickStorageInstance` is random. The tests of pkg/gateway/gateway_test.go require `hash`, `readSortedMapKeys` and a deterministic pick that the shown implementation does not have. `Placement` models those tests, and `PkgGateway.Gateway.Write` models the implementation.
