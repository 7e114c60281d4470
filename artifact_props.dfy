/**
 * Properties of the blob loop and of fetching a SOCI index as a whole:
 * the local store only grows, success leaves the index and every listed blob
 * cached, a failure leaves every earlier blob cached, the cached index decodes
 * to the returned one, a second run finds everything locally, and with a
 * resolver that answers for the digest it was asked about, everything cached
 * is the registry's content.
 */
module ArtifactProps {
  import opened Wrappers
  import opened ArtifactSpec

  /** The resolver answers `<locator>@<digest>` with a descriptor of that digest. */
  ghost predicate ResolverKeepsDigest(caps: Capabilities)
  {
    forall d: Descriptor :: ConstructRef(caps.locator, d) in caps.resolver ==>
      caps.resolver[ConstructRef(caps.locator, d)].digest == d.digest
  }

  /** Each entry of `s` is either as in `before` or the registry's content for that digest. */
  ghost predicate FromRegistry(s: Store, before: Store, remote: Store)
  {
    forall d :: d in s ==> (d in before && s[d] == before[d]) || (d in remote && s[d] == remote[d])
  }

  // ---------------------------------------------------------------------------
  // One fetch

  lemma ConstructRefRoundTrip(locator: string, desc: Descriptor)
    requires '@' !in desc.digest
    ensures SplitLastAt(ConstructRef(locator, desc)) == Some((locator, desc.digest))
  {
    SplitLastAtUnique(locator, desc.digest);
  }

  lemma {:induction false} SplitLastAtUnique(a: string, b: string)
    requires '@' !in b
    ensures SplitLastAt(a + "@" + b) == Some((a, b))
  {
    var s := a + "@" + b;
    if b == [] {
      assert s[..|s| - 1] == a;
    } else {
      var b' := b[..|b| - 1];
      assert s[..|s| - 1] == a + "@" + b';
      assert s[|s| - 1] == b[|b| - 1];
      SplitLastAtUnique(a, b');
      assert b' + [b[|b| - 1]] == b;
    }
  }

  /** The zero-size resolution step is what makes an index addressed by digest
      alone fetchable: the registry refuses the size-0 descriptor, and the
      resolved one (carrying the real size) succeeds. */
  lemma ResolutionRecoversSize(local: Store, caps: Capabilities, dg: Digest)
    requires dg !in local && dg in caps.remote && |caps.remote[dg]| > 0
    requires ConstructRef(caps.locator, Descriptor(dg, 0)) in caps.resolver
    requires caps.resolver[ConstructRef(caps.locator, Descriptor(dg, 0))] == Descriptor(dg, |caps.remote[dg]|)
    ensures RemoteFetchResult(caps.remote, Descriptor(dg, 0)).Failure?
    ensures Route(local, caps, Descriptor(dg, 0)).result == Success(Fetched(caps.remote[dg], false))
  {
  }

  /** A fetched result that is not local is the registry's content for the
      digest asked about, when the resolver keeps digests. */
  lemma RouteFromRegistry(local: Store, caps: Capabilities, desc: Descriptor)
    requires ResolverKeepsDigest(caps)
    ensures var r := Route(local, caps, desc).result;
      r.Success? && !r.value.local ==> desc.digest in caps.remote && r.value.data == caps.remote[desc.digest]
  {
    if desc.digest !in local && desc.size == 0 && ConstructRef(caps.locator, desc) in caps.resolver {
      assert caps.resolver[ConstructRef(caps.locator, desc)].digest == desc.digest;
    }
  }

  // ---------------------------------------------------------------------------
  // The blob loop

  lemma {:induction false} BlobsKeepExisting(blobs: seq<Descriptor>, local: Store, rejects: set<Digest>, caps: Capabilities)
    ensures var o := FetchBlobs(blobs, local, rejects, caps);
      && (forall d :: d in local ==> d in o.local && o.local[d] == local[d])
      && o.local.Keys <= local.Keys + Digests(blobs)
      && (forall c :: c in o.calls && c.LocalPush? ==> c.desc.digest !in local)
    decreases |blobs|
  {
    if blobs != [] {
      var routed := Route(local, caps, blobs[0]);
      if routed.result.Success? {
        var f := routed.result.value;
        if f.local {
          BlobsKeepExisting(blobs[1..], local, rejects, caps);
        } else {
          var pushed := Push(local, rejects, blobs[0], f.data);
          if pushed.ok {
            BlobsKeepExisting(blobs[1..], pushed.store, rejects, caps);
          }
        }
      }
    }
  }

  lemma {:induction false} BlobsSucceeded(blobs: seq<Descriptor>, local: Store, rejects: set<Digest>, caps: Capabilities)
    ensures var o := FetchBlobs(blobs, local, rejects, caps);
      o.err.None? ==> o.local.Keys == local.Keys + Digests(blobs)
    decreases |blobs|
  {
    if blobs != [] {
      var routed := Route(local, caps, blobs[0]);
      if routed.result.Success? {
        var f := routed.result.value;
        if f.local {
          BlobsSucceeded(blobs[1..], local, rejects, caps);
        } else {
          var pushed := Push(local, rejects, blobs[0], f.data);
          if pushed.ok {
            BlobsSucceeded(blobs[1..], pushed.store, rejects, caps);
          }
        }
      }
    }
  }

  /** Partial-failure persistence, without rollback: a failed loop is the
      successful loop over the blobs before some blob k followed by the failed
      task for blob k. Every earlier blob therefore stays cached, blob k is not
      cached, nothing else is added, and the error is blob k's own. */
  lemma BlobsFailedAt(blobs: seq<Descriptor>, local: Store, rejects: set<Digest>, caps: Capabilities)
    ensures var o := FetchBlobs(blobs, local, rejects, caps);
      o.err.Some? ==> exists k :: 0 <= k < |blobs| && FailedAt(blobs, k, local, rejects, caps, o)
                                 && blobs[k].digest !in o.local
                                 && o.local.Keys == local.Keys + Digests(blobs[..k])
                                 && o.err == BlobStep(o.local, rejects, caps, blobs[k]).err
  {
    var o := FetchBlobs(blobs, local, rejects, caps);
    if o.err.Some? {
      var k := FailingBlob(blobs, local, rejects, caps);
      FailedAtCaches(blobs, k, local, rejects, caps, o);
    }
  }

  /** The position of the failing blob of a failed loop. */
  lemma {:induction false} FailingBlob(blobs: seq<Descriptor>, local: Store, rejects: set<Digest>, caps: Capabilities)
    returns (k: nat)
    requires FetchBlobs(blobs, local, rejects, caps).err.Some?
    ensures k < |blobs| && FailedAt(blobs, k, local, rejects, caps, FetchBlobs(blobs, local, rejects, caps))
    decreases |blobs|
  {
    var o := FetchBlobs(blobs, local, rejects, caps);
    var step := BlobStep(local, rejects, caps, blobs[0]);
    if step.err.Some? {
      assert blobs[..0] == [];
      assert Prepend([], step) == step;
      k := 0;
    } else {
      var k' := FailingBlob(blobs[1..], step.local, rejects, caps);
      FailedAtShift(blobs, k', local, rejects, caps);
      k := k' + 1;
    }
  }

  /** A failure at blob `k` after a successful first blob is a failure at `k + 1`. */
  lemma FailedAtShift(blobs: seq<Descriptor>, k: nat, local: Store, rejects: set<Digest>, caps: Capabilities)
    requires k + 1 < |blobs|
    requires BlobStep(local, rejects, caps, blobs[0]).err.None?
    requires var step := BlobStep(local, rejects, caps, blobs[0]);
      FailedAt(blobs[1..], k, step.local, rejects, caps, FetchBlobs(blobs[1..], step.local, rejects, caps))
    ensures FailedAt(blobs, k + 1, local, rejects, caps, FetchBlobs(blobs, local, rejects, caps))
  {
    var step := BlobStep(local, rejects, caps, blobs[0]);
    var rest := FetchBlobs(blobs[1..], step.local, rejects, caps);
    var o := FetchBlobs(blobs, local, rejects, caps);
    assert o == Prepend(step.calls, rest);
    var before' := FetchBlobs(blobs[1..][..k], step.local, rejects, caps);
    var before := FetchBlobs(blobs[..k + 1], local, rejects, caps);
    FetchBlobsPrefix(blobs, k, local, rejects, caps);
    assert blobs[1..][k] == blobs[k + 1];
    var failed := BlobStep(before'.local, rejects, caps, blobs[k + 1]);
    PrependTwice(step.calls, before'.calls, failed);
  }

  lemma PrependTwice(a: seq<Call>, b: seq<Call>, o: BlobsOutcome)
    ensures Prepend(a, Prepend(b, o)) == Prepend(a + b, o)
  {
    assert a + (b + o.calls) == (a + b) + o.calls;
  }

  /** The loop over the first `k + 1` blobs is the first blob's task followed
      by the loop over the next `k`. */
  lemma FetchBlobsPrefix(blobs: seq<Descriptor>, k: nat, local: Store, rejects: set<Digest>, caps: Capabilities)
    requires k + 1 < |blobs|
    requires BlobStep(local, rejects, caps, blobs[0]).err.None?
    ensures var step := BlobStep(local, rejects, caps, blobs[0]);
      FetchBlobs(blobs[..k + 1], local, rejects, caps)
        == Prepend(step.calls, FetchBlobs(blobs[1..][..k], step.local, rejects, caps))
  {
    assert blobs[..k + 1][0] == blobs[0] && blobs[..k + 1][1..] == blobs[1..][..k];
  }

  /** The loop outcome `o` failed at blob `k`: the loop over the blobs before
      `k` succeeded, and `o` is that loop followed by the failed task for `k`. */
  ghost predicate FailedAt(blobs: seq<Descriptor>, k: int, local: Store, rejects: set<Digest>, caps: Capabilities, o: BlobsOutcome)
    requires 0 <= k < |blobs|
  {
    var before := FetchBlobs(blobs[..k], local, rejects, caps);
    && before.err.None?
    && o == Prepend(before.calls, BlobStep(before.local, rejects, caps, blobs[k]))
    && o.err.Some?
  }

  /** After a failure at blob `k`, exactly the blobs before `k` have been
      added to the store, and blob `k` is not cached. */
  lemma FailedAtCaches(blobs: seq<Descriptor>, k: nat, local: Store, rejects: set<Digest>, caps: Capabilities, o: BlobsOutcome)
    requires k < |blobs| && FailedAt(blobs, k, local, rejects, caps, o)
    ensures blobs[k].digest !in o.local
    ensures o.local.Keys == local.Keys + Digests(blobs[..k])
    ensures o.err == BlobStep(o.local, rejects, caps, blobs[k]).err
  {
    BlobsSucceeded(blobs[..k], local, rejects, caps);
  }

  /** When every blob is already local the loop only looks them up: it
      succeeds, writes nothing and contacts no other capability. */
  lemma {:induction false} BlobsAllLocal(blobs: seq<Descriptor>, local: Store, rejects: set<Digest>, caps: Capabilities)
    requires forall j :: 0 <= j < |blobs| ==> blobs[j].digest in local
    ensures var o := FetchBlobs(blobs, local, rejects, caps);
      o.err.None? && o.local == local && forall c :: c in o.calls ==> c.LocalFetch?
    decreases |blobs|
  {
    if blobs != [] {
      BlobsAllLocal(blobs[1..], local, rejects, caps);
    }
  }

  lemma {:induction false} BlobsFromRegistry(blobs: seq<Descriptor>, local: Store, rejects: set<Digest>, caps: Capabilities)
    requires ResolverKeepsDigest(caps)
    ensures FromRegistry(FetchBlobs(blobs, local, rejects, caps).local, local, caps.remote)
    decreases |blobs|
  {
    if blobs != [] {
      var routed := Route(local, caps, blobs[0]);
      RouteFromRegistry(local, caps, blobs[0]);
      if routed.result.Success? {
        var f := routed.result.value;
        if f.local {
          BlobsFromRegistry(blobs[1..], local, rejects, caps);
        } else {
          var pushed := Push(local, rejects, blobs[0], f.data);
          if pushed.ok {
            BlobsFromRegistry(blobs[1..], pushed.store, rejects, caps);
            BlobsKeepExisting(blobs[1..], pushed.store, rejects, caps);
          }
        }
      }
    }
  }

  // ---------------------------------------------------------------------------
  // Fetching a SOCI index

  /** The local store only grows: nothing already cached is overwritten, and
      no push is ever aimed at a digest the store held before. */
  lemma MaterializeKeepsExisting(reg: Registry, imageRef: string, indexDigest: string, local: Store, rejects: set<Digest>)
    ensures var o := Materialize(reg, imageRef, indexDigest, local, rejects);
      && (forall d :: d in local ==> d in o.local && o.local[d] == local[d])
      && (forall c :: c in o.calls && c.LocalPush? ==> c.desc.digest !in local)
  {
    var o := Materialize(reg, imageRef, indexDigest, local, rejects);
    if reg.parseRef(imageRef).Some? && reg.newRepository(reg.parseRef(imageRef).value).Some?
       && reg.parseDigest(indexDigest).Some? {
      var locator := reg.parseRef(imageRef).value;
      var caps := Capabilities(locator, reg.newRepository(locator).value, reg.resolver);
      var dg := reg.parseDigest(indexDigest).value;
      var routed := Route(local, caps, IndexDescriptor(dg));
      if routed.result.Success? && reg.decode(routed.result.value.data).Some? {
        var f := routed.result.value;
        var index := reg.decode(f.data).value;
        var next := if f.local then local else Push(local, rejects, Descriptor(dg, |f.data|), f.data).store;
        if f.local || dg !in rejects {
          BlobsKeepExisting(index.blobs, next, rejects, caps);
        }
      }
    }
  }

  /** On success the index is cached under its digest, the cached bytes decode
      to the returned index, every listed blob is cached, and nothing else is
      added to the store. */
  lemma MaterializeSuccessCaches(reg: Registry, imageRef: string, indexDigest: string, local: Store, rejects: set<Digest>)
    ensures var o := Materialize(reg, imageRef, indexDigest, local, rejects);
      o.result.Success? ==>
        && reg.parseDigest(indexDigest).Some?
        && var dg := reg.parseDigest(indexDigest).value;
        && dg in o.local && reg.decode(o.local[dg]) == Some(o.result.value)
        && o.local.Keys == local.Keys + {dg} + Digests(o.result.value.blobs)
  {
    var o := Materialize(reg, imageRef, indexDigest, local, rejects);
    if o.result.Success? {
      var locator := reg.parseRef(imageRef).value;
      var caps := Capabilities(locator, reg.newRepository(locator).value, reg.resolver);
      var dg := reg.parseDigest(indexDigest).value;
      var f := Route(local, caps, IndexDescriptor(dg)).result.value;
      var index := reg.decode(f.data).value;
      var next := if f.local then local else Push(local, rejects, Descriptor(dg, |f.data|), f.data).store;
      assert dg in next && next[dg] == f.data;
      BlobsKeepExisting(index.blobs, next, rejects, caps);
      BlobsSucceeded(index.blobs, next, rejects, caps);
    }
  }

  /** A failed blob leaves the index cached, with no rollback: the store then
      holds exactly the old entries, the index and the blobs listed before
      blob k, blob k is not cached, and the run's error is blob k's own. */
  lemma MaterializeFailedBlob(reg: Registry, imageRef: string, indexDigest: string, local: Store, rejects: set<Digest>)
    ensures var o := Materialize(reg, imageRef, indexDigest, local, rejects);
      o.result.Failure? && (o.result.error.BlobFetchFailed? || o.result.error.BlobStoreFailed?) ==>
        && reg.parseRef(imageRef).Some?
        && reg.newRepository(reg.parseRef(imageRef).value).Some?
        && reg.parseDigest(indexDigest).Some?
        && var caps := Capabilities(reg.parseRef(imageRef).value, reg.newRepository(reg.parseRef(imageRef).value).value, reg.resolver);
        && var dg := reg.parseDigest(indexDigest).value;
        && dg in o.local
        && exists index: SociIndex, k ::
             && reg.decode(o.local[dg]) == Some(index)
             && 0 <= k < |index.blobs| && index.blobs[k].digest !in o.local
             && o.local.Keys == local.Keys + {dg} + Digests(index.blobs[..k])
             && Some(o.result.error) == BlobStep(o.local, rejects, caps, index.blobs[k]).err
  {
    var o := Materialize(reg, imageRef, indexDigest, local, rejects);
    if o.result.Failure? && (o.result.error.BlobFetchFailed? || o.result.error.BlobStoreFailed?) {
      var locator := reg.parseRef(imageRef).value;
      var caps := Capabilities(locator, reg.newRepository(locator).value, reg.resolver);
      var dg := reg.parseDigest(indexDigest).value;
      var f := Route(local, caps, IndexDescriptor(dg)).result.value;
      var index := reg.decode(f.data).value;
      var next := if f.local then local else Push(local, rejects, Descriptor(dg, |f.data|), f.data).store;
      assert dg in next && next[dg] == f.data;
      assert next.Keys == local.Keys + {dg};
      var b := FetchBlobs(index.blobs, next, rejects, caps);
      BlobsKeepExisting(index.blobs, next, rejects, caps);
      var k := FailingBlob(index.blobs, next, rejects, caps);
      FailedAtCaches(index.blobs, k, next, rejects, caps, b);
      assert o.local == b.local && Some(o.result.error) == b.err;
      assert reg.decode(o.local[dg]) == Some(index);
    }
  }

  /** The index step: an index that did not come from the local store is
      pushed to it under the parsed digest with the fetched length as its
      size, right after the fetch's calls. A failed push ends the run with
      the store unchanged and no blob touched; a successful one caches the
      fetched bytes under the digest. */
  lemma MaterializeIndexPush(reg: Registry, imageRef: string, indexDigest: string, local: Store, rejects: set<Digest>)
    requires reg.parseRef(imageRef).Some? && reg.newRepository(reg.parseRef(imageRef).value).Some?
    requires reg.parseDigest(indexDigest).Some?
    ensures var caps := Capabilities(reg.parseRef(imageRef).value, reg.newRepository(reg.parseRef(imageRef).value).value, reg.resolver);
      var dg := reg.parseDigest(indexDigest).value;
      var routed := Route(local, caps, IndexDescriptor(dg));
      var o := Materialize(reg, imageRef, indexDigest, local, rejects);
      routed.result.Success? && !routed.result.value.local && reg.decode(routed.result.value.data).Some? ==>
        var push := LocalPush(Descriptor(dg, |routed.result.value.data|));
        && |o.calls| > |routed.calls|
        && o.calls[..|routed.calls| + 1] == routed.calls + [push]
        && (o.result == Failure(IndexPushFailed(dg)) <==> dg in rejects)
        && (dg in rejects ==> o.local == local && o.calls == routed.calls + [push])
        && (dg !in rejects ==> dg in o.local && o.local[dg] == routed.result.value.data)
  {
    var locator := reg.parseRef(imageRef).value;
    var caps := Capabilities(locator, reg.newRepository(locator).value, reg.resolver);
    var dg := reg.parseDigest(indexDigest).value;
    var routed := Route(local, caps, IndexDescriptor(dg));
    var o := Materialize(reg, imageRef, indexDigest, local, rejects);
    if routed.result.Success? && !routed.result.value.local && reg.decode(routed.result.value.data).Some? {
      var f := routed.result.value;
      var push := LocalPush(Descriptor(dg, |f.data|));
      var next := Push(local, rejects, Descriptor(dg, |f.data|), f.data).store;
      if dg !in rejects {
        var b := FetchBlobs(reg.decode(f.data).value.blobs, next, rejects, caps);
        assert o.calls == (routed.calls + [push]) + b.calls;
        assert o.calls[..|routed.calls| + 1] == routed.calls + [push];
        BlobsKeepExisting(reg.decode(f.data).value.blobs, next, rejects, caps);
      }
    }
  }

  /** A second run with the same arguments over the store a successful run
      left behind finds the index locally, returns the same index, writes
      nothing and only consults the local store. */
  lemma MaterializeRerun(reg: Registry, imageRef: string, indexDigest: string, local: Store, rejects: set<Digest>)
    ensures var o := Materialize(reg, imageRef, indexDigest, local, rejects);
      o.result.Success? ==>
        var again := Materialize(reg, imageRef, indexDigest, o.local, rejects);
        && again.result == o.result
        && again.local == o.local
        && again.calls != [] && forall c :: c in again.calls ==> c.LocalFetch?
  {
    var o := Materialize(reg, imageRef, indexDigest, local, rejects);
    if o.result.Success? {
      MaterializeSuccessCaches(reg, imageRef, indexDigest, local, rejects);
      var locator := reg.parseRef(imageRef).value;
      var caps := Capabilities(locator, reg.newRepository(locator).value, reg.resolver);
      var dg := reg.parseDigest(indexDigest).value;
      var index := o.result.value;
      var routed := Route(o.local, caps, IndexDescriptor(dg));
      assert routed.result == Success(Fetched(o.local[dg], true));
      forall j | 0 <= j < |index.blobs|
        ensures index.blobs[j].digest in o.local
      {
        DigestsHas(index.blobs, j);
      }
      BlobsAllLocal(index.blobs, o.local, rejects, caps);
    }
  }

  /** With a resolver that keeps digests, everything the run adds to the local
      store is the registry's content for that digest. */
  lemma MaterializeFromRegistry(reg: Registry, imageRef: string, indexDigest: string, local: Store, rejects: set<Digest>)
    requires reg.parseRef(imageRef).Some? && reg.newRepository(reg.parseRef(imageRef).value).Some?
    requires ResolverKeepsDigest(Capabilities(reg.parseRef(imageRef).value,
                                              reg.newRepository(reg.parseRef(imageRef).value).value, reg.resolver))
    ensures var o := Materialize(reg, imageRef, indexDigest, local, rejects);
      FromRegistry(o.local, local, reg.newRepository(reg.parseRef(imageRef).value).value)
  {
    var locator := reg.parseRef(imageRef).value;
    var caps := Capabilities(locator, reg.newRepository(locator).value, reg.resolver);
    if reg.parseDigest(indexDigest).Some? {
      var dg := reg.parseDigest(indexDigest).value;
      var routed := Route(local, caps, IndexDescriptor(dg));
      RouteFromRegistry(local, caps, IndexDescriptor(dg));
      if routed.result.Success? && reg.decode(routed.result.value.data).Some? {
        var f := routed.result.value;
        var index := reg.decode(f.data).value;
        var next := if f.local then local else Push(local, rejects, Descriptor(dg, |f.data|), f.data).store;
        if f.local || dg !in rejects {
          assert FromRegistry(next, local, caps.remote);
          BlobsFromRegistry(index.blobs, next, rejects, caps);
          BlobsKeepExisting(index.blobs, next, rejects, caps);
        }
      }
    }
  }

  lemma {:induction false} DigestsHas(blobs: seq<Descriptor>, j: int)
    requires 0 <= j < |blobs|
    ensures blobs[j].digest in Digests(blobs)
    decreases |blobs|
  {
    if j > 0 {
      DigestsHas(blobs[1..], j - 1);
    }
  }
}
