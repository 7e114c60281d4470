/**
 * The artifact fetcher as values: descriptors, the two content stores, the
 * resolver, and pure specifications of how a fetch is routed and of what
 * fetching a SOCI index with all its blobs does to the local store.
 *
 * Every capability call is recorded in a trace (`Call`), so that "which
 * capability is consulted, and in what order" can be stated and proved.
 */
module ArtifactSpec {
  import opened Wrappers

  newtype byte = x: int | 0 <= x < 256

  type Bytes = seq<byte>

  /** A content digest such as "sha256:...", the only key a store is addressed by. */
  type Digest = string

  /** A content store: digest-addressed content. */
  type Store = map<Digest, Bytes>

  /** An OCI descriptor. A `size` of 0 means that the size is not known. */
  datatype Descriptor = Descriptor(digest: Digest, size: int)

  /** One call into a capability of the fetcher. */
  datatype Call =
    | LocalFetch(desc: Descriptor)
    | ResolverLookup(ref: string)
    | RemoteFetch(desc: Descriptor)
    | LocalPush(desc: Descriptor)

  datatype FetchError =
    | ResolveFailed(ref: string)          // "size of descriptor is 0; unable to resolve"
    | RemoteFetchFailed(digest: Digest)   // "unable to fetch descriptor (...) from remote store"

  /** The content a fetch returns, and whether it came from the local store. */
  datatype Fetched = Fetched(data: Bytes, local: bool)

  datatype Routed = Routed(result: Result<Fetched, FetchError>, calls: seq<Call>)

  /** What the fetcher consults besides the local store: the locator of the
      image reference, the registry repository and the registry resolver. */
  datatype Capabilities = Capabilities(locator: string, remote: Store, resolver: map<string, Descriptor>)

  /** The reference the resolver is asked for: `<locator>@<digest>`. */
  function ConstructRef(locator: string, desc: Descriptor): (ref: string)
    ensures |ref| == |locator| + 1 + |desc.digest|
    ensures ref[..|locator|] == locator && ref[|locator|] == '@' && ref[|locator| + 1..] == desc.digest
  {
    locator + "@" + desc.digest
  }

  /** Reads a reference of the form `<locator>@<digest>` back, splitting at its last '@'. */
  function SplitLastAt(s: string): (r: Option<(string, string)>)
    ensures r.None? <==> '@' !in s
    ensures r.Some? ==> s == r.value.0 + "@" + r.value.1 && '@' !in r.value.1
  {
    if s == [] then None
    else if s[|s| - 1] == '@' then
      assert s == s[..|s| - 1] + "@" + "";
      Some((s[..|s| - 1], ""))
    else
      match SplitLastAt(s[..|s| - 1])
      case None =>
        assert s == s[..|s| - 1] + [s[|s| - 1]];
        None
      case Some(p) =>
        assert s == s[..|s| - 1] + [s[|s| - 1]];
        Some((p.0, p.1 + [s[|s| - 1]]))
  }

  // ---------------------------------------------------------------------------
  // Registry credentials

  /** The registry credential shapes used here; the access-token field is never set. */
  datatype Credential = Credential(username: string, password: string, refreshToken: string)

  const EmptyCredential := Credential("", "", "")

  /** What the docker config credential lookup answers for a host. */
  datatype DockerCreds = Creds(username: string, secret: string) | CredsLookupFailed(cause: string)

  datatype CredentialAnswer = CredentialAnswer(credential: Credential, err: Option<string>)

  /** The credential callback installed on the remote repository's auth client. */
  function CredentialFor(lookup: DockerCreds): (a: CredentialAnswer)
    ensures lookup.CredsLookupFailed? ==> a == CredentialAnswer(EmptyCredential, Some(lookup.cause))
    ensures lookup.Creds? ==> a.err == None && a.credential.username == lookup.username
    // the secret is presented as a refresh token exactly when there is no username
    ensures lookup.Creds? ==>
      (a.credential.refreshToken != "" <==> lookup.username == "" && lookup.secret != "")
    // the secret is carried whole by exactly one of the two fields
    ensures lookup.Creds? ==> a.credential.password + a.credential.refreshToken == lookup.secret
    ensures a.credential.password == "" || a.credential.refreshToken == ""
  {
    match lookup
    case CredsLookupFailed(cause) => CredentialAnswer(EmptyCredential, Some(cause))
    case Creds(username, secret) =>
      if username == "" && secret != "" then
        CredentialAnswer(Credential("", "", secret), None)
      else
        CredentialAnswer(Credential(username, secret, ""), None)
  }

  // ---------------------------------------------------------------------------
  // Routing one fetch

  /** Asking the resolver for `<locator>@<digest>`. */
  function ResolveDescriptor(caps: Capabilities, desc: Descriptor): (r: Result<Descriptor, FetchError>)
    ensures r.Success? <==> ConstructRef(caps.locator, desc) in caps.resolver
    ensures r.Success? ==> r.value == caps.resolver[ConstructRef(caps.locator, desc)]
    ensures r.Failure? ==> r.error == ResolveFailed(ConstructRef(caps.locator, desc))
  {
    var ref := ConstructRef(caps.locator, desc);
    if ref in caps.resolver then Success(caps.resolver[ref]) else Failure(ResolveFailed(ref))
  }

  /** The registry's fetch: it finds content by digest and rejects a response
      whose length is not the descriptor's size, which is why a size-0
      descriptor cannot be fetched from the registry directly. */
  function RemoteFetchResult(remote: Store, desc: Descriptor): Result<Fetched, FetchError>
  {
    if desc.digest in remote && |remote[desc.digest]| == desc.size then Success(Fetched(remote[desc.digest], false))
    else Failure(RemoteFetchFailed(desc.digest))
  }

  /** Specification of `Fetch`: the result and the calls it makes, in order. */
  function Route(local: Store, caps: Capabilities, desc: Descriptor): (o: Routed)
    // the local store is always asked first
    ensures |o.calls| >= 1 && o.calls[0] == LocalFetch(desc)
    ensures (o.result.Success? && o.result.value.local) <==> desc.digest in local
    // a local hit returns the local content and consults nothing else
    ensures desc.digest in local ==>
      o == Routed(Success(Fetched(local[desc.digest], true)), [LocalFetch(desc)])
    // a miss with unknown size asks the resolver for exactly <locator>@<digest> ...
    ensures desc.digest !in local && desc.size == 0 ==>
      |o.calls| >= 2 && o.calls[1] == ResolverLookup(ConstructRef(caps.locator, desc))
    // ... a failed resolution ends the fetch before the registry is contacted ...
    ensures desc.digest !in local && desc.size == 0 && ConstructRef(caps.locator, desc) !in caps.resolver ==>
      o == Routed(Failure(ResolveFailed(ConstructRef(caps.locator, desc))),
                  [LocalFetch(desc), ResolverLookup(ConstructRef(caps.locator, desc))])
    // ... and otherwise the registry is asked for the resolved descriptor, not the original
    ensures desc.digest !in local && desc.size == 0 && ConstructRef(caps.locator, desc) in caps.resolver ==>
      var resolved := caps.resolver[ConstructRef(caps.locator, desc)];
      o == Routed(RemoteFetchResult(caps.remote, resolved),
                  [LocalFetch(desc), ResolverLookup(ConstructRef(caps.locator, desc)), RemoteFetch(resolved)])
    // a miss with a known size goes straight to the registry
    ensures desc.digest !in local && desc.size != 0 ==>
      o == Routed(RemoteFetchResult(caps.remote, desc), [LocalFetch(desc), RemoteFetch(desc)])
  {
    if desc.digest in local then
      Routed(Success(Fetched(local[desc.digest], true)), [LocalFetch(desc)])
    else if desc.size == 0 then
      match ResolveDescriptor(caps, desc)
      case Failure(e) => Routed(Failure(e), [LocalFetch(desc), ResolverLookup(ConstructRef(caps.locator, desc))])
      case Success(resolved) =>
        Routed(RemoteFetchResult(caps.remote, resolved),
               [LocalFetch(desc), ResolverLookup(ConstructRef(caps.locator, desc)), RemoteFetch(resolved)])
    else
      Routed(RemoteFetchResult(caps.remote, desc), [LocalFetch(desc), RemoteFetch(desc)])
  }

  /** The local store's push: it writes the content under the digest unless
      the store refuses that digest (a write error of the store). */
  datatype Pushed = Pushed(ok: bool, store: Store)

  function Push(local: Store, rejects: set<Digest>, desc: Descriptor, data: Bytes): Pushed
  {
    if desc.digest in rejects then Pushed(false, local) else Pushed(true, local[desc.digest := data])
  }

  // ---------------------------------------------------------------------------
  // Fetching a SOCI index and its blobs

  /** The parsed SOCI index; only the blob list matters to the fetcher. */
  datatype SociIndex = SociIndex(blobs: seq<Descriptor>)

  datatype SociError =
    | RefParseFailed(imageRef: string)
    | RemoteStoreFailed(locator: string)
    | DigestParseFailed(indexDigest: string)
    | IndexFetchFailed(cause: FetchError)
    | IndexDecodeFailed
    | IndexPushFailed(digest: Digest)
    | BlobFetchFailed(cause: FetchError)
    | BlobStoreFailed(digest: Digest)

  /** The parsers and registry the top-level fetch depends on, as given functions. */
  datatype Registry = Registry(
    parseRef: string -> Option<string>,          // image reference -> locator
    newRepository: string -> Option<Store>,      // locator -> repository content
    resolver: map<string, Descriptor>,
    parseDigest: string -> Option<Digest>,
    decode: Bytes -> Option<SociIndex>)

  datatype BlobsOutcome = BlobsOutcome(err: Option<SociError>, local: Store, calls: seq<Call>)

  function Digests(blobs: seq<Descriptor>): set<Digest>
  {
    if blobs == [] then {} else {blobs[0].digest} + Digests(blobs[1..])
  }

  function Prepend(calls: seq<Call>, o: BlobsOutcome): BlobsOutcome
  {
    o.(calls := calls + o.calls)
  }

  /** The work done for one blob: fetch it, and store it locally when it did
      not come from there. */
  function BlobStep(local: Store, rejects: set<Digest>, caps: Capabilities, blob: Descriptor): (o: BlobsOutcome)
    // the local store is asked first, and a local blob is neither fetched nor pushed again
    ensures o.calls != [] && o.calls[0] == LocalFetch(blob)
    ensures blob.digest in local ==> o == BlobsOutcome(None, local, [LocalFetch(blob)])
    // a failed task leaves the store as it was, and its blob is not cached
    ensures o.err.Some? ==> o.local == local && blob.digest !in local
    ensures o.err.Some? ==> o.err.value.BlobFetchFailed? || o.err.value == BlobStoreFailed(blob.digest)
    // a successful task caches the blob and nothing else; existing entries stay as they were
    ensures o.err.None? ==> o.local.Keys == local.Keys + {blob.digest}
    ensures forall d :: d in local ==> d in o.local && o.local[d] == local[d]
    // a push happens exactly when the blob came from the registry
    ensures LocalPush(blob) in o.calls <==> Route(local, caps, blob).result.Success? && !Route(local, caps, blob).result.value.local
  {
    var routed := Route(local, caps, blob);
    match routed.result
    case Failure(e) => BlobsOutcome(Some(BlobFetchFailed(e)), local, routed.calls)
    case Success(f) =>
      if f.local then BlobsOutcome(None, local, routed.calls)
      else
        var pushed := Push(local, rejects, blob, f.data);
        var calls := routed.calls + [LocalPush(blob)];
        if !pushed.ok then BlobsOutcome(Some(BlobStoreFailed(blob.digest)), local, calls)
        else BlobsOutcome(None, pushed.store, calls)
  }

  /** The blob loop, one blob after another, stopping at the first failure. */
  function FetchBlobs(blobs: seq<Descriptor>, local: Store, rejects: set<Digest>, caps: Capabilities): (o: BlobsOutcome)
    // only a blob task can fail, and each blob costs at least one call
    ensures o.err.Some? ==> o.err.value.BlobFetchFailed? || o.err.value.BlobStoreFailed?
    ensures o.err.None? ==> |o.calls| >= |blobs|
    // the first blob is looked up locally before anything else
    ensures blobs != [] ==> o.calls != [] && o.calls[0] == LocalFetch(blobs[0])
    decreases |blobs|
  {
    if blobs == [] then BlobsOutcome(None, local, [])
    else
      var step := BlobStep(local, rejects, caps, blobs[0]);
      if step.err.Some? then step
      else Prepend(step.calls, FetchBlobs(blobs[1..], step.local, rejects, caps))
  }

  /** The blob loop unfolded at position `i` of the list, after the calls `done`. */
  lemma FetchBlobsAt(blobs: seq<Descriptor>, i: nat, local: Store, rejects: set<Digest>, caps: Capabilities, done: seq<Call>)
    requires i < |blobs|
    ensures var step := BlobStep(local, rejects, caps, blobs[i]);
      Prepend(done, FetchBlobs(blobs[i..], local, rejects, caps)) ==
        if step.err.Some? then Prepend(done, step)
        else Prepend(done + step.calls, FetchBlobs(blobs[i + 1..], step.local, rejects, caps))
  {
    assert blobs[i..][0] == blobs[i] && blobs[i..][1..] == blobs[i + 1..];
    var step := BlobStep(local, rejects, caps, blobs[i]);
    if step.err.None? {
      var rest := FetchBlobs(blobs[i + 1..], step.local, rejects, caps);
      assert done + (step.calls + rest.calls) == (done + step.calls) + rest.calls;
    }
  }

  datatype Materialized = Materialized(result: Result<SociIndex, SociError>, local: Store, calls: seq<Call>)

  /** The digest-only descriptor the index is requested with. */
  function IndexDescriptor(dg: Digest): Descriptor
  {
    Descriptor(dg, 0)
  }

  /** Specification of `FetchSociArtifacts` over a local store holding `local`. */
  function Materialize(reg: Registry, imageRef: string, indexDigest: string, local: Store, rejects: set<Digest>): (o: Materialized)
    // parse and setup failures touch nothing
    ensures reg.parseRef(imageRef).None? ==> o == Materialized(Failure(RefParseFailed(imageRef)), local, [])
    ensures o.calls == [] ==> o.local == local && o.result.Failure?
    // once the digest parses, the first thing done is a local lookup of the digest-only descriptor
    ensures o.calls != [] ==>
      reg.parseRef(imageRef).Some? && reg.parseDigest(indexDigest).Some? &&
      o.calls[0] == LocalFetch(IndexDescriptor(reg.parseDigest(indexDigest).value))
  {
    match reg.parseRef(imageRef)
    case None => Materialized(Failure(RefParseFailed(imageRef)), local, [])
    case Some(locator) =>
      match reg.newRepository(locator)
      case None => Materialized(Failure(RemoteStoreFailed(locator)), local, [])
      case Some(remote) =>
        match reg.parseDigest(indexDigest)
        case None => Materialized(Failure(DigestParseFailed(indexDigest)), local, [])
        case Some(dg) =>
          var caps := Capabilities(locator, remote, reg.resolver);
          var routed := Route(local, caps, IndexDescriptor(dg));
          match routed.result
          case Failure(e) => Materialized(Failure(IndexFetchFailed(e)), local, routed.calls)
          case Success(f) =>
            match reg.decode(f.data)
            case None => Materialized(Failure(IndexDecodeFailed), local, routed.calls)
            case Some(index) =>
              var pushed := if f.local then Pushed(true, local) else Push(local, rejects, Descriptor(dg, |f.data|), f.data);
              var calls := if f.local then routed.calls else routed.calls + [LocalPush(Descriptor(dg, |f.data|))];
              if !pushed.ok then Materialized(Failure(IndexPushFailed(dg)), local, calls)
              else
                var b := FetchBlobs(index.blobs, pushed.store, rejects, caps);
                Materialized(if b.err.Some? then Failure(b.err.value) else Success(index), b.local, calls + b.calls)
  }
}
