/** An abstract view of S3 for the commands that change it: the keys each
    bucket holds. A request the store accepts takes effect, one it refuses
    changes nothing. */
module ObjectStore {
  import opened Environment

  type Store = map<string, set<string>>

  /** The effect of one request: an upload adds its key, a removal takes its
      key away, creating a bucket adds it without keys (an existing bucket
      is left as it is), deleting a bucket drops it with whatever it held. */
  function Perform(accepts: Request -> bool, store: Store, req: Request): (s: Store)
    ensures !accepts(req) ==> s == store
    ensures forall b :: b != req.bucket ==> (b in s <==> b in store)
    ensures forall b :: b != req.bucket && b in s ==> s[b] == store[b]
    ensures accepts(req) && req.DeleteBucket? ==> req.bucket !in s
    ensures accepts(req) && req.CreateBucket? ==> req.bucket in s
    ensures accepts(req) && req.CreateBucket? && req.bucket !in store ==> s[req.bucket] == {}
  {
    if !accepts(req) then store
    else match req
      case PutObject(b, k, _, _) => if b in store then store[b := store[b] + {k}] else store
      case DeleteObject(b, k) => if b in store then store[b := store[b] - {k}] else store
      case CreateBucket(b) => if b in store then store else store[b := {}]
      case DeleteBucket(b) => store - {b}
  }

  /** The effect of a trace of requests, in the order they were issued. */
  function PerformAll(accepts: Request -> bool, store: Store, reqs: seq<Request>): Store
    decreases |reqs|
  {
    if reqs == [] then store else PerformAll(accepts, Perform(accepts, store, reqs[0]), reqs[1..])
  }

  lemma {:induction false} PerformAllAppend(accepts: Request -> bool, store: Store, a: seq<Request>, b: seq<Request>)
    ensures PerformAll(accepts, store, a + b) == PerformAll(accepts, PerformAll(accepts, store, a), b)
    decreases |a|
  {
    if a == [] {
      assert a + b == b;
    } else {
      assert (a + b)[0] == a[0] && (a + b)[1..] == a[1..] + b;
      PerformAllAppend(accepts, Perform(accepts, store, a[0]), a[1..], b);
    }
  }

  /** The removal requests for `keys` of one bucket, in order. */
  function Deletes(bucket: string, keys: seq<string>): (reqs: seq<Request>)
    ensures |reqs| == |keys|
    ensures forall k :: 0 <= k < |keys| ==> reqs[k] == DeleteObject(bucket, keys[k])
    decreases |keys|
  {
    if keys == [] then [] else [DeleteObject(bucket, keys[0])] + Deletes(bucket, keys[1..])
  }

  /** The keys among `keys` whose removal the store accepts. */
  function Accepted(accepts: Request -> bool, bucket: string, keys: seq<string>): set<string> {
    set k | k in keys && accepts(DeleteObject(bucket, k))
  }

  /** Removing keys one by one takes exactly the accepted ones out of their
      bucket, and touches no other bucket. */
  lemma {:induction false} DeletesRemove(accepts: Request -> bool, store: Store, bucket: string, keys: seq<string>)
    ensures PerformAll(accepts, store, Deletes(bucket, keys))
              == if bucket in store then store[bucket := store[bucket] - Accepted(accepts, bucket, keys)] else store
    decreases |keys|
  {
    if keys == [] {
      assert Accepted(accepts, bucket, keys) == {};
      if bucket in store {
        assert store[bucket] - {} == store[bucket];
        assert store[bucket := store[bucket] - {}] == store;
      }
    } else {
      var req := DeleteObject(bucket, keys[0]);
      var s1 := Perform(accepts, store, req);
      DeletesRemove(accepts, s1, bucket, keys[1..]);
      var rest := Accepted(accepts, bucket, keys[1..]);
      var here := if accepts(req) then {keys[0]} else {};
      assert Accepted(accepts, bucket, keys) == here + rest by {
        forall k | k in keys ensures k in keys[1..] || k == keys[0] {
        }
      }
      if bucket in store {
        if !accepts(req) {
          assert store[bucket] - here == store[bucket];
          assert store[bucket := store[bucket] - here] == store;
        }
        assert s1 == store[bucket := store[bucket] - here];
        assert (store[bucket] - here) - rest == store[bucket] - (here + rest);
      }
    }
  }

  /** When every removal is accepted, every listed key is gone. */
  lemma AllDeletesRemove(accepts: Request -> bool, store: Store, bucket: string, keys: seq<string>)
    requires forall k :: 0 <= k < |keys| ==> accepts(DeleteObject(bucket, keys[k]))
    ensures PerformAll(accepts, store, Deletes(bucket, keys))
              == if bucket in store then store[bucket := store[bucket] - set k | k in keys] else store
  {
    DeletesRemove(accepts, store, bucket, keys);
    assert Accepted(accepts, bucket, keys) == set k | k in keys;
  }
}
