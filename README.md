# SOCI artifact fetcher and retry policy, modelled in Dafny

This project models two parts of the soci-snapshotter:

- **The artifact fetcher** in `fs/artifact_fetcher.go`. It fetches a SOCI index and every blob the index lists into a local content store. A fetch tries the local store first. On a miss it may resolve a descriptor whose size is unknown (size 0) through the registry resolver, and then it fetches from the registry repository. Content fetched from the registry is pushed into the local store.
- **The retry arithmetic of the registry HTTP client** in `util/http/retry.go`. This covers the default timeouts and retry limits, jitter on `time.Duration` (int64 nanoseconds), the backoff strategy, the documented retry classification and the meaning of `MaxRetries`.

How the model is built:

- Both content stores are maps from digest to bytes. The registry repository is read-only here. The local store is a class whose map its methods update in place.
- The resolver is a partial map from reference string to descriptor.
- `reference.Parse`, `remote.NewRepository`, `digest.Parse` and the JSON decoding of the index are functions given in a `Registry` value. Each may fail.
- Every capability call is recorded in a ghost trace (`Call`). This lets contracts state which capability is consulted, and in what order.
- The registry's blob fetch checks the response length against the descriptor's size, so it fails on a size-0 descriptor for non-empty content. That is the reason for the resolution step given in the comment at `fs/artifact_fetcher.go:130`.
- A push to the local store fails exactly for the digests in the store's `rejects` set. This stands for any write error of the store.

Files:

- `wrappers.dfy`: the `Option` and `Result` types.
- `artifact_spec.dfy` (module `ArtifactSpec`): the data model and the pure specifications `Route` (one fetch), `FetchBlobs` (the blob loop) and `Materialize` (the whole index fetch).
- `artifact_props.dfy` (module `ArtifactProps`): lemmas about those specifications.
- `artifact_fetcher.dfy` (module `ArtifactFetcher`): the classes `LocalStore` and `Fetcher`, and the methods `FetchSociArtifacts`, `FetchAllBlobs` and `FetchBlob`. Each method is proved equal to its specification function.
- `retry.dfy` (module `Retry`): the retry and backoff model.

## Model

| member | source | states |
|---|---|---|
| `ArtifactSpec.ConstructRef` | fs/artifact_fetcher.go:111-115 | The reference is the locator, an '@', then the digest: its length is the sum of theirs plus one, and it splits into exactly those three parts. |
| `ArtifactSpec.CredentialFor` | fs/artifact_fetcher.go:78-93 | A failed lookup gives the empty credential together with that error. Otherwise the username is kept. The secret becomes a refresh token exactly when the username is empty and the secret is not. In every case the secret is carried whole by exactly one of password and refresh token. |
| `ArtifactSpec.ResolveDescriptor` | fs/artifact_fetcher.go:150-157 | The resolver is asked for `ConstructRef(desc)`. Resolution succeeds exactly when the resolver knows that reference, and then returns its descriptor. Otherwise it fails with an error naming the reference. |
| `ArtifactSpec.Route` | fs/artifact_fetcher.go:120-148 | The local store is always asked first. A local hit returns the local content with `local = true` and calls nothing else; the result is local exactly when the digest is local. A miss with size 0 asks the resolver for exactly `<locator>@<digest>`. A failed resolution ends the fetch before the registry is called. Otherwise the registry is asked for the resolved descriptor, not the original one. A miss with a known size goes straight to the registry and never calls the resolver. |
| `ArtifactSpec.Materialize` | fs/artifact_fetcher.go:168-192 | An unparsable image reference fails with no call made and the store unchanged. A run that makes no call leaves the store unchanged and fails. Once anything is called, the first call is a local lookup of the size-0, digest-only index descriptor. |
| `ArtifactProps.ConstructRefRoundTrip` | fs/artifact_fetcher.go:111-115 | Splitting the constructed reference at its last '@' gives back the locator and the digest, for any digest without an '@'. |
| `ArtifactProps.ResolutionRecoversSize` | fs/artifact_fetcher.go:129-140 | The registry refuses a size-0 descriptor for non-empty content. When the resolver gives the real size, a size-0 fetch of a non-local digest returns the registry's content. |
| `ArtifactProps.RouteFromRegistry` | fs/artifact_fetcher.go:142-147 | If the resolver answers with the digest it was asked about, a non-local result is the registry's content for the requested digest. |
| `ArtifactProps.BlobsKeepExisting` | fs/artifact_fetcher.go:219-231 | The blob loop never changes an existing entry. It adds only digests of listed blobs. It never pushes a digest the store already held. |
| `ArtifactProps.BlobsSucceeded` | fs/artifact_fetcher.go:219-236 | When the blob loop succeeds, the store's keys are the old keys plus the digest of every listed blob. |
| `ArtifactProps.BlobsFailedAt` | fs/artifact_fetcher.go:218-235 | Nothing is rolled back. A failed loop is the successful loop over the blobs before some blob k, followed by blob k's failed task. Blob k is not cached. The store holds exactly the old keys plus the digests of the blobs before k. The loop's error is blob k's own. |
| `ArtifactProps.BlobsAllLocal` | fs/artifact_fetcher.go:222-229 | If every listed blob is already local, the loop succeeds, leaves the store unchanged, and only calls local lookups. |
| `ArtifactProps.BlobsFromRegistry` | fs/artifact_fetcher.go:222-230 | If the resolver keeps digests, each entry after the loop is either unchanged or the registry's content for that digest. |
| `ArtifactProps.MaterializeKeepsExisting` | fs/artifact_fetcher.go:206-231 | Fetching the index and its blobs never overwrites a cached entry. No push targets a digest the store held before. |
| `ArtifactProps.MaterializeSuccessCaches` | fs/artifact_fetcher.go:194-238 | On success the index digest is cached and its cached bytes decode to the returned index. The store's keys are then exactly the old keys, the index digest and the digests of the listed blobs. |
| `ArtifactProps.MaterializeFailedBlob` | fs/artifact_fetcher.go:206-236 | When a blob fails, the index stays cached and decodes to an index whose blob k is not cached. The store holds exactly the old keys, the index digest and the digests of the blobs listed before k. The run's error is the error of blob k's task. |
| `ArtifactProps.MaterializeIndexPush` | fs/artifact_fetcher.go:206-215 | An index that did not come from the local store is pushed right after the fetch's calls, under the parsed digest and with the fetched length as its size. The run fails with `IndexPushFailed` exactly when that push fails. It then stops with the store unchanged and no blob touched. A successful push caches the fetched bytes under the digest. |
| `ArtifactProps.MaterializeRerun` | fs/artifact_fetcher.go:189-238 | Rerunning with the same arguments on the store a successful run left gives the same index and changes nothing in the store. That run only calls local lookups, so the index now counts as local. |
| `ArtifactProps.MaterializeFromRegistry` | fs/artifact_fetcher.go:189-230 | If the resolver keeps digests, everything the run adds to the local store, index included, is the registry's content for that digest. |
| `ArtifactFetcher.LocalStore.Fetch` | fs/artifact_fetcher.go:122-126 | The local store finds content by digest alone. It returns the stored bytes when the digest is present and reports a miss otherwise. |
| `ArtifactFetcher.LocalStore.Push` | fs/artifact_fetcher.go:159-166 | A push writes the content under the descriptor's digest and reports success, unless the store refuses the digest. Then it reports failure and the store is unchanged. |
| `ArtifactFetcher.Fetcher.constructor` | fs/artifact_fetcher.go:61-68 | The fetcher holds exactly the given locator, local store, registry repository and resolver. |
| `ArtifactFetcher.Fetcher.Fetch` | fs/artifact_fetcher.go:120-148 | The result and the ordered capability calls are those of `Route` on the current local content. The method reads the store and changes nothing. |
| `ArtifactFetcher.Fetcher.Store` | fs/artifact_fetcher.go:159-166 | Only the local store changes, and the content is added under the descriptor's digest. If the push fails, the error is returned and the store is unchanged. |
| `ArtifactSpec.BlobStep` | fs/artifact_fetcher.go:221-231 | One blob task asks the local store first. A local blob is neither fetched nor pushed. A failed task leaves the store as it was, its blob is not cached, and its error is a fetch error or a store error for that blob. A successful task adds exactly the blob's digest and changes no existing entry. A push happens exactly when the blob came from the registry. |
| `ArtifactSpec.FetchBlobs` | fs/artifact_fetcher.go:218-236 | Only a blob task can make the loop fail. A successful loop makes at least one call per blob, and the first call is the local lookup of the first blob. |
| `ArtifactSpec.FetchBlobsAt` | fs/artifact_fetcher.go:219-235 | The blob loop from position `i` is the step for blob `i`. After a failed step it stops with that step's outcome. Otherwise it goes on with the loop from `i + 1`, on the store the step left and after the step's calls. |
| `ArtifactFetcher.FetchBlob` | fs/artifact_fetcher.go:221-231 | The error, the new local content and the calls of one blob task are those of `BlobStep`. A failed fetch is returned as an error. A local hit succeeds without a push. Otherwise the content is pushed to the local store, and a failed push is the task's error. |
| `ArtifactFetcher.FetchAllBlobs` | fs/artifact_fetcher.go:218-236 | The result, the new local content and the calls are those of `FetchBlobs`, starting from the store before the loop. |
| `ArtifactFetcher.FetchSociArtifacts` | fs/artifact_fetcher.go:168-239 | The result, the new local content and the calls are those of `Materialize`, starting from the store before the call. |
| `Retry.NewRetryableClientConfig` | util/http/retry.go:84-97 | The defaults are 3 s dial, 3 s response-header and 30 s request timeouts, 8 retries, 30 ms minimum wait and 300 s maximum wait, all in nanoseconds. MinWait is at most MaxWait, and each per-phase timeout is at most the request timeout. |
| `Retry.Quo` | util/http/retry.go:128 | Go's int64 division truncates toward zero. The magnitude of the quotient is the quotient of the magnitudes. The quotient is negative exactly when the signs differ and the divisor's magnitude does not exceed the dividend's. The one overflowing case, the least int64 divided by -1, wraps to the least int64. |
| `Retry.QuoTruncates` | util/http/retry.go:128 | Concrete quotients that tell truncation from flooring: -1/8 is 0, -9/8 is -1, 9/-8 is -1, -9/-8 is 1, and the least int64 divided by -1 is the least int64. |
| `Retry.Jitter` | util/http/retry.go:126-129 | A jitter exists only if `d / divisor`, truncated toward zero, is positive. When `d + d/divisor - 1` fits in an int64, the result lies in `[d, d + d/divisor - 1]`. |
| `Retry.JitterCoversRange` | util/http/retry.go:126-129 | Every value in the documented range is the jitter of some random draw. |
| `Retry.BackoffStrategy` | util/http/retry.go:126-138 | The strategy panics exactly when `base/8` is not positive. Otherwise, when `base + base/8 - 1` fits in an int64, the delay lies in `[base, base + base/8 - 1]`, with Go's integer division, and so is less than 1.125 times the base. Beyond that bound the sum wraps around as Go's int64 addition does. |
| `Retry.BackoffPanicsOnShortDelay` | util/http/retry.go:135-138 | Any base delay from 0 to 7 ns makes the strategy panic. |
| `Retry.BackoffCanExceedMaxWait` | util/http/retry.go:57-59 | A base equal to the default MaxWait can come back as MaxWait + 1 ns. |
| `Retry.SafeBackoff` | util/http/retry.go:131-138 | The corrected backoff is at least the base. It is at most the larger of the base and MaxWait. A base below 8 ns is returned unchanged. Otherwise the added jitter is at most `base/8 - 1`. |
| `Retry.SafeBackoffAgrees` | util/http/retry.go:131-138 | Where the code as written is sound, the correction changes nothing. For a base of at least 8 ns whose jitter stays within MaxWait, the safe backoff equals the strategy's own delay. |
| `Retry.DocumentedRetry` | util/http/retry.go:140-142 | A non-retryable URL error is never retried, and any other transport error is. Without a transport error, exactly the statuses 429 and 5xx other than 501 are retried. |
| `Retry.RetryStrategy` | util/http/retry.go:143-152 | The strategy returns exactly the default policy's decision and error; logging does not change them. |
| `Retry.RetryStrategyClassifies` | util/http/retry.go:140-144 | The classification belongs wholly to the library's default policy. The strategy retries as documented exactly when that policy does. |
| `Retry.DocumentedRetryStatuses` | util/http/retry.go:140-142 | Status 429 and 500-599 other than 501 are retried, as is an ordinary transport error. Status 501 and 200-399 are not retried. |
| `Retry.Attempts` | util/http/retry.go:51-53 | The initial request is always sent. At most `MaxRetries` retries follow, and never more than the retry check has asked for; a second request happens only if the retry check asked for a retry after the first. |
| `Retry.AttemptsCount` | util/http/retry.go:51-53 | The number of requests is 1 plus the number of retries wanted, capped at `MaxRetries`. |
| `Retry.AttemptsWhenAlwaysRetrying` | util/http/retry.go:51-53 | If every attempt asks for a retry, the client sends `MaxRetries + 1` requests. |
| `Retry.ExponentialDelay` | util/http/retry.go:133-134 | The exponential delay is never longer than MaxWait, and never shorter than MinWait when MinWait is non-negative and at most MaxWait. |
| `Retry.BackoffBudgetBounds` | util/http/retry.go:39-46 | The total base delay over n retries is at most `n * MaxWait`. When `0 <= MinWait <= MaxWait` it is also at least `n * MinWait`. |
| `Retry.BackoffBudgetUncapped` | util/http/retry.go:39-46 | While no delay reaches MaxWait, the total base delay over n retries is `MinWait * (2^n - 1)`. |
| `Retry.DefaultRetryBudget` | util/http/retry.go:39-46 | With the defaults the total base delay is 30 ms * (2^8 - 1) = 7650 ms, which is more than 5 s. |

## Findings

| source | as written | input that shows it | evidently intended | confidence | as-written member | corrected member |
|---|---|---|---|---|---|---|
| util/http/retry.go:135-138 | `Jitter(delay, 8)` calls `rand.Int63n(delay/8)`, and `Int63n` panics when its argument is not positive | a base delay below 8 ns, e.g. 0 from a `Retry-After: 0` header or a configured `MinWait` of 0 | a delay too short to jitter is used as it is | medium, not executed | `Retry.BackoffPanicsOnShortDelay` | `Retry.SafeBackoff` |
| util/http/retry.go:57-59 | the jitter is added after the default backoff has capped the delay at MaxWait, so the wait can exceed MaxWait, contrary to the field's documentation | base delay = MaxWait = 300 s, random draw 1 gives 300 s + 1 ns | the wait never exceeds MaxWait | low, not executed | `Retry.BackoffCanExceedMaxWait` | `Retry.SafeBackoff` |

## Left out

- Concurrency: the blob fan-out in `errgroup`, its shared cancellation context, and the blobs that in-flight goroutines may still cache after a sibling has failed. The model runs the blobs in order and stops at the first failure.
- Context cancellation and deadlines throughout.
- Stream I/O: `io.Copy`, `ReadCloser.Close` and `bytes.Buffer` are not modelled. Readers are byte sequences, so a read error while draining the index cannot occur in the model.
- Logging (`log.G(ctx)`): it has no effect on results.
- `reference.Parse`, `remote.NewRepository`, `digest.Parse` and the JSON decoding of `soci.SociIndex` are given functions that may fail; their internals are not part of this model.
- The index decoded here is the JSON `soci.SociIndex`, and only its blob list is modelled. The binary table schema of the index is not part of this model.
- Registry and transport construction: `newResolver`, `ConfigureHosts`, TLS, the auth client and its cache, and `NewRetryableClient`'s assignments to fields of library objects. These have no logic of their own. The credential callback is modelled apart from them (`CredentialFor`), and credentials do not affect whether a registry call succeeds in the model.
- `CredentialFor`: the access-token field of the credential is not modelled; this code never sets it.
- The internals of `rhttp.DefaultBackoff` and `rhttp.DefaultRetryPolicy`. The base delay is an input of `BackoffStrategy`, and the policy is a parameter of `RetryStrategy`. `ExponentialDelay` and `BackoffBudget` follow the formula in the comment at util/http/retry.go:39.
- `Attempts`: the retry check's answers are a finite sequence; after the last answer the retry check is taken to say stop.
- Media types of descriptors, and the content verification the stores do beyond the registry's size check. Because of the latter, a blob listed with size 0 is pushed under its size-0 descriptor without a check.
- `Fetcher.Fetch` does not write to the local store. The interface comment at fs/artifact_fetcher.go:43-45 says that `Fetch` saves what it fetches, but that comment is stale: the implementation at fs/artifact_fetcher.go:120-148 only reads. The callers store the content themselves, at fs/artifact_fetcher.go:206-216 and :230, and the model follows the code.
- What the resolver returns alongside an error: it is discarded by `Fetch` and is not modelled.
