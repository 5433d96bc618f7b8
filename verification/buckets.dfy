/** The buckets command (buckets.go): listing the buckets, creating one, and
    deleting one together with its keys. */
module BucketsCmd {
  import opened Outcomes
  import opened Environment
  import opened ObjectStore
  import opened Cmd

  /** One listed bucket: its name and creation time. */
  datatype BucketRecord = BucketRecord(bucket: string, created: int)

  /** listBuckets: one record per bucket, in the order S3 lists them. */
  method ListBuckets(cloud: Cloud) returns (records: seq<BucketRecord>, err: Option<Failure>)
    ensures cloud.buckets.None? ==> records == [] && err == Some(BucketsFailed)
    ensures cloud.buckets.Some? ==> err.None? && |records| == |cloud.buckets.value|
    ensures cloud.buckets.Some? ==> forall k :: 0 <= k < |records| ==>
              records[k] == BucketRecord(cloud.buckets.value[k].name, cloud.buckets.value[k].created)
  {
    if cloud.buckets.None? {
      return [], Some(BucketsFailed);
    }
    var list := cloud.buckets.value;
    records := [];
    for i := 0 to |list|
      invariant |records| == i
      invariant forall k :: 0 <= k < i ==> records[k] == BucketRecord(list[k].name, list[k].created)
    {
      records := records + [BucketRecord(list[i].name, list[i].created)];
    }
    err := None;
  }

  // ---------------------------------------------------------------------
  // create
  // ---------------------------------------------------------------------

  /** createBucket: a bucket that is already listed is an error and nothing
      is requested; otherwise one CreateBucket request is issued. */
  function Create(cloud: Cloud, name: string): (r: (seq<Request>, Option<Failure>))
    ensures BucketFound(cloud, name) == Ok(true) ==> r == ([], Some(BucketExists(name)))
    ensures r.0 != [] <==> BucketFound(cloud, name) == Ok(false)
    ensures r.0 != [] ==> r.0 == [CreateBucket(name)]
    ensures r.1.None? <==> r.0 != [] && cloud.accepts(CreateBucket(name))
  {
    match BucketFound(cloud, name)
    case Err(e) => ([], Some(e))
    case Ok(found) =>
      if found then ([], Some(BucketExists(name)))
      else
        var req := CreateBucket(name);
        ([req], if cloud.accepts(req) then None else Some(CreateFailed(name)))
  }

  /** createBucket, as the source runs it. */
  method CreateBucketCmd(cloud: Cloud, name: string) returns (sent: seq<Request>, err: Option<Failure>)
    ensures (sent, err) == Create(cloud, name)
  {
    var found, e := HasBucket(cloud, name);
    if e.Some? {
      return [], e;
    }
    if found {
      return [], Some(BucketExists(name));
    }
    var req := CreateBucket(name);
    sent := [req];
    err := if cloud.accepts(req) then None else Some(CreateFailed(name));
  }

  /** A successful create leaves the new bucket in the store without keys,
      and changes no other bucket; a failed one changes nothing. */
  lemma CreateEffect(cloud: Cloud, store: Store, name: string)
    requires name !in store
    ensures var r := Create(cloud, name);
            var after := PerformAll(cloud.accepts, store, r.0);
            && (r.1.None? ==> after == store[name := {}])
            && (r.1.Some? ==> after == store)
  {
    var r := Create(cloud, name);
    if r.0 != [] {
      assert r.0[1..] == [];
    }
  }

  // ---------------------------------------------------------------------
  // delete
  // ---------------------------------------------------------------------

  function KeyNames(objects: seq<S3Object>): (names: seq<string>)
    ensures |names| == |objects|
    ensures forall k :: 0 <= k < |objects| ==> names[k] == objects[k].key
  {
    seq(|objects|, k requires 0 <= k < |objects| => objects[k].key)
  }

  /** `r` is the outcome of removing `keys` one by one: one request per key
      in listing order; it succeeds exactly when every key's removal was
      issued and accepted, and a failure names the key whose removal was
      refused, the last one issued. */
  predicate Removals(cloud: Cloud, name: string, keys: seq<S3Object>, r: (seq<Request>, Option<Failure>)) {
    && |r.0| <= |keys|
    && (forall k :: 0 <= k < |r.0| ==> r.0[k] == DeleteObject(name, keys[k].key))
    && (r.1.None? <==> |r.0| == |keys| && forall k :: 0 <= k < |r.0| ==> cloud.accepts(r.0[k]))
    && (r.1.Some? ==> 0 < |r.0| && !cloud.accepts(r.0[|r.0| - 1])
                      && r.1 == Some(RemoveFailed(name, keys[|r.0| - 1].key)))
  }

  lemma RemovalsCons(cloud: Cloud, name: string, keys: seq<S3Object>, rest: (seq<Request>, Option<Failure>))
    requires keys != [] && cloud.accepts(DeleteObject(name, keys[0].key))
    requires Removals(cloud, name, keys[1..], rest)
    ensures Removals(cloud, name, keys, After([DeleteObject(name, keys[0].key)], rest))
  {
    var sent := [DeleteObject(name, keys[0].key)] + rest.0;
    assert forall k :: 1 <= k < |sent| ==> sent[k] == rest.0[k - 1] && keys[k] == keys[1..][k - 1];
  }

  /** The key removals of a forced delete: one request per key in listing
      order; the first refused removal stops the loop. */
  function DeleteKeys(cloud: Cloud, name: string, keys: seq<S3Object>): (r: (seq<Request>, Option<Failure>))
    ensures Removals(cloud, name, keys, r)
    decreases |keys|
  {
    if keys == [] then ([], None)
    else
      var req := DeleteObject(name, keys[0].key);
      if !cloud.accepts(req) then ([req], Some(RemoveFailed(name, keys[0].key)))
      else
        var rest := DeleteKeys(cloud, name, keys[1..]);
        RemovalsCons(cloud, name, keys, rest);
        After([req], rest)
  }

  /** deleteBucket: the bucket must be listed; a bucket holding keys needs
      force; then every key goes, in listing order, and the bucket last. */
  function Delete(cloud: Cloud, name: string, force: bool): (r: (seq<Request>, Option<Failure>)) {
    match BucketFound(cloud, name)
    case Err(e) => ([], Some(e))
    case Ok(found) =>
      if !found then ([], Some(NoSuchBucket(name)))
      else match BucketKeys(cloud, name, "")
        case Err(e) => ([], Some(e))
        case Ok(keys) =>
          if |keys| > 0 && !force then ([], Some(BucketNotEmpty(name)))
          else
            var removed := DeleteKeys(cloud, name, keys);
            if removed.1.Some? then removed
            else
              var req := DeleteBucket(name);
              (removed.0 + [req], if cloud.accepts(req) then None else Some(DeleteBucketFailed(name)))
  }

  /** The removals of the bucket's keys, in listing order. */
  function KeyDeletes(cloud: Cloud, name: string): seq<Request>
    requires BucketKeys(cloud, name, "").Ok?
  {
    Deletes(name, KeyNames(BucketKeys(cloud, name, "").value))
  }

  /** The request rules of deleteBucket: nothing is requested for a bucket
      that is not listed, or that holds keys without force; a bucket is only
      deleted after all its keys were, and never after a refused removal. */
  lemma DeleteRequests(cloud: Cloud, name: string, force: bool)
    ensures BucketFound(cloud, name) == Ok(false) ==> Delete(cloud, name, force) == ([], Some(NoSuchBucket(name)))
    ensures BucketFound(cloud, name) == Ok(true) && !force && SizeOfBucket(cloud, name).Ok? && SizeOfBucket(cloud, name).value > 0 ==>
              Delete(cloud, name, force) == ([], Some(BucketNotEmpty(name)))
    ensures DeleteBucket(name) in Delete(cloud, name, force).0 ==>
              BucketKeys(cloud, name, "").Ok?
              && Delete(cloud, name, force).0 == KeyDeletes(cloud, name) + [DeleteBucket(name)]
              && forall k :: 0 <= k < |KeyDeletes(cloud, name)| ==> cloud.accepts(KeyDeletes(cloud, name)[k])
    ensures BucketFound(cloud, name) == Ok(true) && SizeOfBucket(cloud, name) == Ok(0) ==>
              Delete(cloud, name, force) == ([DeleteBucket(name)], if cloud.accepts(DeleteBucket(name)) then None else Some(DeleteBucketFailed(name)))
  {
    var r := Delete(cloud, name, force);
    if DeleteBucket(name) in r.0 {
      var keys := BucketKeys(cloud, name, "").value;
      var removed := DeleteKeys(cloud, name, keys);
      assert removed.0 == KeyDeletes(cloud, name);
    }
    if BucketFound(cloud, name) == Ok(true) && SizeOfBucket(cloud, name) == Ok(0) {
      assert DeleteKeys(cloud, name, BucketKeys(cloud, name, "").value) == ([], None);
      assert [] + [DeleteBucket(name)] == [DeleteBucket(name)];
    }
  }

  /** A successful delete issued the removal of every listed key, all
      accepted, then the accepted deletion of the bucket. */
  lemma SuccessfulDelete(cloud: Cloud, name: string, force: bool)
    requires Delete(cloud, name, force).1.None?
    ensures BucketKeys(cloud, name, "").Ok?
    ensures Delete(cloud, name, force).0 == KeyDeletes(cloud, name) + [DeleteBucket(name)]
    ensures forall k :: 0 <= k < |KeyDeletes(cloud, name)| ==> cloud.accepts(KeyDeletes(cloud, name)[k])
    ensures cloud.accepts(DeleteBucket(name))
  {
    var keys := BucketKeys(cloud, name, "").value;
    var removed := DeleteKeys(cloud, name, keys);
    assert removed.0 == KeyDeletes(cloud, name);
  }

  /** What a successful delete leaves: the bucket is gone and no other
      bucket changed; just before the bucket was deleted it held only what
      the key listing leaves out (the directory markers). */
  lemma DeleteEffect(cloud: Cloud, store: Store, name: string, force: bool)
    requires Delete(cloud, name, force).1.None?
    ensures BucketKeys(cloud, name, "").Ok?
    ensures var keys := KeyNames(BucketKeys(cloud, name, "").value);
            var emptied := PerformAll(cloud.accepts, store, Deletes(name, keys));
            && (name in store ==> emptied == store[name := store[name] - set k | k in keys])
            && PerformAll(cloud.accepts, store, Delete(cloud, name, force).0) == store - {name}
  {
    SuccessfulDelete(cloud, name, force);
    var keys := KeyNames(BucketKeys(cloud, name, "").value);
    var dels := Deletes(name, keys);
    assert dels == KeyDeletes(cloud, name);
    AllDeletesRemove(cloud.accepts, store, name, keys);
    PerformAllAppend(cloud.accepts, store, dels, [DeleteBucket(name)]);
    var emptied := PerformAll(cloud.accepts, store, dels);
    BucketDeletedLast(cloud.accepts, emptied, name);
    EmptiedThenDropped(store, emptied, name, set k | k in keys);
  }

  lemma BucketDeletedLast(accepts: Request -> bool, store: Store, name: string)
    requires accepts(DeleteBucket(name))
    ensures PerformAll(accepts, store, [DeleteBucket(name)]) == store - {name}
  {
    assert [DeleteBucket(name)][1..] == [];
  }

  lemma EmptiedThenDropped(store: Store, emptied: Store, name: string, gone: set<string>)
    requires emptied == if name in store then store[name := store[name] - gone] else store
    ensures emptied - {name} == store - {name}
  {
  }

  /** A delete that ends in a refused key removal never deletes the bucket. */
  lemma RefusedRemovalKeepsBucket(cloud: Cloud, name: string, force: bool)
    requires Delete(cloud, name, force).1.Some? && Delete(cloud, name, force).1.value.RemoveFailed?
    ensures DeleteBucket(name) !in Delete(cloud, name, force).0
  {
    var r := Delete(cloud, name, force);
    var keys := BucketKeys(cloud, name, "").value;
    assert r == DeleteKeys(cloud, name, keys);
  }

  /** deleteBucket, as the source runs it: the existence check, the size
      check, the removal loop, then the bucket. The key listing is the one
      the size was taken from: S3 answers a listing the same way within one
      command. */
  method DeleteBucketCmd(cloud: Cloud, name: string, force: bool) returns (sent: seq<Request>, err: Option<Failure>)
    ensures (sent, err) == Delete(cloud, name, force)
  {
    var found, e := HasBucket(cloud, name);
    if e.Some? {
      return [], e;
    }
    if !found {
      return [], Some(NoSuchBucket(name));
    }
    var listing := ListBucketKeys(cloud, name, "");
    if listing.Err? {
      return [], Some(listing.error);
    }
    var keys := listing.value;
    assert listing == BucketKeys(cloud, name, "");
    if |keys| > 0 && !force {
      return [], Some(BucketNotEmpty(name));
    }
    var removed, failed := RemoveKeys(cloud, name, keys);
    if failed.Some? {
      return removed, failed;
    }
    var req := DeleteBucket(name);
    sent := removed + [req];
    err := if cloud.accepts(req) then None else Some(DeleteBucketFailed(name));
  }

  /** The removal loop of deleteBucket. */
  method RemoveKeys(cloud: Cloud, name: string, keys: seq<S3Object>) returns (sent: seq<Request>, err: Option<Failure>)
    ensures (sent, err) == DeleteKeys(cloud, name, keys)
  {
    sent := [];
    var i := 0;
    assert keys[i..] == keys;
    while i < |keys|
      invariant 0 <= i <= |keys|
      invariant DeleteKeys(cloud, name, keys) == After(sent, DeleteKeys(cloud, name, keys[i..]))
    {
      assert keys[i..][0] == keys[i] && keys[i..][1..] == keys[i + 1..];
      var req := DeleteObject(name, keys[i].key);
      if !cloud.accepts(req) {
        return sent + [req], Some(RemoveFailed(name, keys[i].key));
      }
      var rest := DeleteKeys(cloud, name, keys[i + 1..]);
      assert sent + ([req] + rest.0) == (sent + [req]) + rest.0;
      sent := sent + [req];
      i := i + 1;
    }
    assert sent + [] == sent;
    return sent, None;
  }
}
