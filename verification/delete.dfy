/** The delete command (delete.go): removing files from a bucket, each one
    on its own. */
module DeleteCmd {
  import opened Outcomes
  import opened Environment
  import opened ObjectStore
  import opened Cmd
  import Utils

  /** What is reported for one path. */
  datatype Removal = Removed(path: string) | NotRemoved(path: string)

  /** The report for one path given whether S3 accepted its removal. */
  function Report(cloud: Cloud, bucket: string, path: string): (e: Removal)
    ensures e.path == path
    ensures e.Removed? <==> cloud.accepts(DeleteObject(bucket, path))
  {
    if cloud.accepts(DeleteObject(bucket, path)) then Removed(path) else NotRemoved(path)
  }

  /** deleteFile: no argument is an error, checked before the bucket is
      looked up; a bucket that is not listed is an error with nothing
      removed; otherwise every path is removed on its own, a refused removal
      is only reported, and the command succeeds. */
  function DeleteFiles(cloud: Cloud, bucket: string, args: seq<string>): (r: (seq<Request>, seq<Removal>, Option<Failure>))
    ensures args == [] ==> r == ([], [], Some(NoArguments))
    ensures args != [] && BucketFound(cloud, bucket) != Ok(true) ==> r.0 == [] && r.1 == [] && r.2.Some?
    ensures args != [] && BucketFound(cloud, bucket) == Ok(false) ==> r.2 == Some(NoSuchBucket(bucket))
    ensures args != [] && BucketFound(cloud, bucket) == Ok(true) ==>
              && r.2.None?
              && r.0 == Deletes(bucket, args)
              && |r.1| == |args|
              && forall k :: 0 <= k < |args| ==> r.1[k] == Report(cloud, bucket, args[k])
  {
    if args == [] then ([], [], Some(NoArguments))
    else match BucketFound(cloud, bucket)
      case Err(e) => ([], [], Some(e))
      case Ok(found) =>
        if !found then ([], [], Some(NoSuchBucket(bucket)))
        else (Deletes(bucket, args), seq(|args|, k requires 0 <= k < |args| => Report(cloud, bucket, args[k])), None)
  }

  /** What a delete leaves in the store: exactly the paths whose removal
      was accepted are gone from the bucket, whatever failed before or
      after them; no other bucket changes. */
  lemma DeleteEffect(cloud: Cloud, store: Store, bucket: string, args: seq<string>)
    requires bucket in store
    ensures var r := DeleteFiles(cloud, bucket, args);
            var after := PerformAll(cloud.accepts, store, r.0);
            after == store[bucket := store[bucket] - set k | 0 <= k < |r.1| && r.1[k].Removed? :: r.1[k].path]
  {
    var r := DeleteFiles(cloud, bucket, args);
    var removed := set k | 0 <= k < |r.1| && r.1[k].Removed? :: r.1[k].path;
    if r.0 == [] {
      assert removed == {};
      assert store[bucket] - {} == store[bucket];
      assert store[bucket := store[bucket] - {}] == store;
    } else {
      DeletesRemove(cloud.accepts, store, bucket, args);
      assert removed == Accepted(cloud.accepts, bucket, args) by {
        forall p | p in Accepted(cloud.accepts, bucket, args) ensures p in removed {
          var k :| 0 <= k < |args| && args[k] == p;
          assert r.1[k] == Report(cloud, bucket, args[k]);
        }
      }
    }
  }

  /** deleteFile, as the source runs it. */
  method DeleteFile(cloud: Cloud, bucket: string, args: seq<string>) returns (sent: seq<Request>, reports: seq<Removal>, err: Option<Failure>)
    ensures (sent, reports, err) == DeleteFiles(cloud, bucket, args)
  {
    if |args| <= 0 {
      return [], [], Some(NoArguments);
    }
    var found, e := HasBucket(cloud, bucket);
    if e.Some? {
      return [], [], e;
    }
    if !found {
      return [], [], Some(NoSuchBucket(bucket));
    }
    var paths := Utils.GetPaths(args);
    sent := [];
    reports := [];
    for i := 0 to |paths|
      invariant |sent| == i && |reports| == i
      invariant forall k :: 0 <= k < i ==> sent[k] == DeleteObject(bucket, paths[k])
      invariant forall k :: 0 <= k < i ==> reports[k] == Report(cloud, bucket, paths[k])
    {
      var path := paths[i];
      var req := DeleteObject(bucket, path);
      sent := sent + [req];
      if !cloud.accepts(req) {
        reports := reports + [NotRemoved(path)];
        continue;
      }
      reports := reports + [Removed(path)];
    }
    assert sent == Deletes(bucket, args);
    assert reports == DeleteFiles(cloud, bucket, args).1;
    err := None;
  }
}
