/**
 * The artifact fetcher as objects: a local store whose content the fetcher
 * and its caller update in place, a fetcher over the local store, the
 * registry repository and the resolver, and the top-level fetch of a SOCI
 * index with its blobs. Each method is proved against the specification
 * functions of `ArtifactSpec`, whose properties `ArtifactProps` proves.
 */
module ArtifactFetcher {
  import opened Wrappers
  import opened ArtifactSpec

  /** The caller's local content store. A push of a digest in `rejects` fails. */
  class LocalStore {
    var blobs: Store
    const rejects: set<Digest>

    constructor (blobs: Store, rejects: set<Digest>)
      ensures this.blobs == blobs && this.rejects == rejects
    {
      this.blobs := blobs;
      this.rejects := rejects;
    }

    /** Content is found by digest alone; a miss is not an error. */
    method Fetch(desc: Descriptor) returns (r: Option<Bytes>)
      ensures r.Some? <==> desc.digest in blobs
      ensures r.Some? ==> r.value == blobs[desc.digest]
    {
      r := if desc.digest in blobs then Some(blobs[desc.digest]) else None;
    }

    method Push(desc: Descriptor, data: Bytes) returns (ok: bool)
      modifies this
      ensures Pushed(ok, blobs) == ArtifactSpec.Push(old(blobs), rejects, desc, data)
    {
      ok := desc.digest !in rejects;
      if ok {
        blobs := blobs[desc.digest := data];
      }
    }
  }

  class Fetcher {
    const locator: string
    const localStore: LocalStore
    const remoteStore: Store
    const resolver: map<string, Descriptor>

    constructor (locator: string, localStore: LocalStore, remoteStore: Store, resolver: map<string, Descriptor>)
      ensures this.locator == locator && this.localStore == localStore
      ensures this.remoteStore == remoteStore && this.resolver == resolver
    {
      this.locator := locator;
      this.localStore := localStore;
      this.remoteStore := remoteStore;
      this.resolver := resolver;
    }

    function Caps(): Capabilities
    {
      Capabilities(locator, remoteStore, resolver)
    }

    /** Local first; on a miss, resolve a size-0 descriptor, then fetch from
        the registry. `calls` records the capabilities consulted, in order. */
    method Fetch(desc: Descriptor) returns (res: Result<Fetched, FetchError>, ghost calls: seq<Call>)
      ensures res == Route(localStore.blobs, Caps(), desc).result
      ensures calls == Route(localStore.blobs, Caps(), desc).calls
    {
      calls := [LocalFetch(desc)];
      var rc := localStore.Fetch(desc);
      if rc.Some? {
        return Success(Fetched(rc.value, true)), calls;
      }
      var d := desc;
      if d.size == 0 {
        calls := calls + [ResolverLookup(ConstructRef(locator, d))];
        var resolved := ResolveDescriptor(Caps(), d);
        if resolved.Failure? {
          return Failure(resolved.error), calls;
        }
        d := resolved.value;
      }
      calls := calls + [RemoteFetch(d)];
      res := RemoteFetchResult(remoteStore, d);
    }

    /** Writes to the local store only. */
    method Store(desc: Descriptor, data: Bytes) returns (ok: bool)
      modifies localStore
      ensures ok <==> desc.digest !in localStore.rejects
      ensures localStore.blobs == if ok then old(localStore.blobs)[desc.digest := data] else old(localStore.blobs)
    {
      ok := localStore.Push(desc, data);
    }
  }

  /** Fetches the SOCI index `indexDigest` of `imageRef` and every blob it
      lists into `store`, one blob after another. */
  method FetchSociArtifacts(reg: Registry, imageRef: string, indexDigest: string, store: LocalStore)
    returns (r: Result<SociIndex, SociError>, ghost calls: seq<Call>)
    modifies store
    ensures Materialized(r, store.blobs, calls) == Materialize(reg, imageRef, indexDigest, old(store.blobs), store.rejects)
  {
    calls := [];
    var refspec := reg.parseRef(imageRef);
    if refspec.None? {
      return Failure(RefParseFailed(imageRef)), calls;
    }
    var repo := reg.newRepository(refspec.value);
    if repo.None? {
      return Failure(RemoteStoreFailed(refspec.value)), calls;
    }
    var fetcher := new Fetcher(refspec.value, store, repo.value, reg.resolver);
    var dgst := reg.parseDigest(indexDigest);
    if dgst.None? {
      return Failure(DigestParseFailed(indexDigest)), calls;
    }
    var dg := dgst.value;

    var fetched;
    fetched, calls := fetcher.Fetch(IndexDescriptor(dg));
    if fetched.Failure? {
      return Failure(IndexFetchFailed(fetched.error)), calls;
    }
    var indexBytes := fetched.value.data;
    var decoded := reg.decode(indexBytes);
    if decoded.None? {
      return Failure(IndexDecodeFailed), calls;
    }
    var index := decoded.value;

    if !fetched.value.local {
      var indexDesc := Descriptor(dg, |indexBytes|);
      calls := calls + [LocalPush(indexDesc)];
      var ok := store.Push(indexDesc, indexBytes);
      if !ok {
        return Failure(IndexPushFailed(dg)), calls;
      }
    }

    var err, blobCalls := FetchAllBlobs(fetcher, index.blobs);
    calls := calls + blobCalls;
    r := if err.Some? then Failure(err.value) else Success(index);
  }

  /** One task of the blob fan-out: fetch the blob and store it locally
      when it did not come from there. */
  method FetchBlob(fetcher: Fetcher, blob: Descriptor) returns (err: Option<SociError>, ghost calls: seq<Call>)
    modifies fetcher.localStore
    ensures BlobsOutcome(err, fetcher.localStore.blobs, calls)
         == BlobStep(old(fetcher.localStore.blobs), fetcher.localStore.rejects, fetcher.Caps(), blob)
  {
    var res;
    res, calls := fetcher.Fetch(blob);
    if res.Failure? {
      return Some(BlobFetchFailed(res.error)), calls;
    }
    if res.value.local {
      return None, calls;
    }
    calls := calls + [LocalPush(blob)];
    var ok := fetcher.Store(blob, res.value.data);
    err := if ok then None else Some(BlobStoreFailed(blob.digest));
  }

  /** The blob fan-out, run one blob after another and stopping at the first failure. */
  method FetchAllBlobs(fetcher: Fetcher, blobs: seq<Descriptor>) returns (err: Option<SociError>, ghost calls: seq<Call>)
    modifies fetcher.localStore
    ensures BlobsOutcome(err, fetcher.localStore.blobs, calls)
         == FetchBlobs(blobs, old(fetcher.localStore.blobs), fetcher.localStore.rejects, fetcher.Caps())
  {
    var store := fetcher.localStore;
    ghost var caps := fetcher.Caps();
    ghost var whole := FetchBlobs(blobs, store.blobs, store.rejects, caps);
    calls := [];
    var i := 0;
    while i < |blobs|
      invariant 0 <= i <= |blobs|
      invariant whole == Prepend(calls, FetchBlobs(blobs[i..], store.blobs, store.rejects, caps))
    {
      FetchBlobsAt(blobs, i, store.blobs, store.rejects, caps, calls);
      var blobErr, blobCalls := FetchBlob(fetcher, blobs[i]);
      calls := calls + blobCalls;
      if blobErr.Some? {
        return blobErr, calls;
      }
      i := i + 1;
    }
    err := None;
  }
}
