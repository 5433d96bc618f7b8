/** The S3 helpers of the command-line tool (cmd.go): bucket and key
    lookups, the key listing, fetching, uploading and removing one object. */
module Cmd {
  import opened Outcomes
  import opened Environment
  import opened GoStrings
  import opened Seqs
  import LegacyS3

  /** Why a command of the tool stops. */
  datatype Failure =
    | BucketsFailed                            // ListBuckets failed
    | ListFailed(bucket: string, prefix: string) // ListObjects failed
    | FetchFailed(bucket: string, key: string)   // GetObject failed, or reading its body did
    | NoSuchBucket(bucket: string)
    | BucketExists(bucket: string)
    | BucketNotEmpty(bucket: string)
    | NoArguments
    | FlattenWithPath
    | ExpandFailed(path: string)
    | PutFailed(file: string)
    | InvalidFilter(filter: string)
    | MkdirFailed(dir: string)
    | WriteFailed(path: string)
    | CreateFailed(bucket: string)
    | RemoveFailed(bucket: string, key: string)
    | DeleteBucketFailed(bucket: string)

  /** A listed key that names an object rather than a directory marker. */
  predicate IsKey(o: S3Object) {
    !HasSuffix(o.key, "/")
  }

  /** listBucketKeys, as the source runs it: the objects listed under the
      prefix, in listing order, without the directory markers. */
  method ListBucketKeys(cloud: Cloud, bucket: string, prefix: string) returns (keys: Result<seq<S3Object>, Failure>)
    ensures cloud.objects(bucket, prefix).None? ==> keys == Err(ListFailed(bucket, prefix))
    ensures cloud.objects(bucket, prefix).Some? ==> keys == Ok(Filter(cloud.objects(bucket, prefix).value, IsKey))
  {
    var resp := cloud.objects(bucket, prefix);
    if resp.None? {
      return Err(ListFailed(bucket, prefix));
    }
    var contents := resp.value;
    var list := [];
    var i := 0;
    while i < |contents|
      invariant 0 <= i <= |contents|
      invariant list == Filter(contents[..i], IsKey)
    {
      FilterSnoc(contents, i, IsKey);
      if !HasSuffix(contents[i].key, "/") {
        list := list + [contents[i]];
      }
      i := i + 1;
    }
    assert contents[..i] == contents;
    return Ok(list);
  }

  /** The key listing as a value, for the specifications of the commands. */
  function BucketKeys(cloud: Cloud, bucket: string, prefix: string): (r: Result<seq<S3Object>, Failure>)
    ensures r.Err? <==> cloud.objects(bucket, prefix).None?
    ensures r.Err? ==> r.error == ListFailed(bucket, prefix)
    ensures r.Ok? ==> forall o :: o in r.value <==> o in cloud.objects(bucket, prefix).value && IsKey(o)
  {
    match cloud.objects(bucket, prefix)
    case None => Err(ListFailed(bucket, prefix))
    case Some(objects) => Ok(Filter(objects, IsKey))
  }

  /** Whether some bucket in the listing has the name. */
  predicate Listed(buckets: seq<BucketInfo>, name: string) {
    exists k :: 0 <= k < |buckets| && buckets[k].name == name
  }

  /** hasBucket as a value: a failed bucket listing is an error. */
  function BucketFound(cloud: Cloud, bucket: string): (r: Result<bool, Failure>)
    ensures r.Err? <==> cloud.buckets.None?
    ensures r.Err? ==> r.error == BucketsFailed
    ensures r.Ok? ==> (r.value <==> Listed(cloud.buckets.value, bucket))
  {
    match cloud.buckets
    case None => Err(BucketsFailed)
    case Some(list) => Ok(Listed(list, bucket))
  }

  /** hasBucket, as the source runs it: a search that stops at the first
      bucket with the name. */
  method HasBucket(cloud: Cloud, bucket: string) returns (found: bool, err: Option<Failure>)
    ensures cloud.buckets.None? ==> !found && err == Some(BucketsFailed)
    ensures cloud.buckets.Some? ==> err.None? && (found <==> Listed(cloud.buckets.value, bucket))
  {
    if cloud.buckets.None? {
      return false, Some(BucketsFailed);
    }
    var list := cloud.buckets.value;
    var i := 0;
    while i < |list|
      invariant 0 <= i <= |list|
      invariant forall k :: 0 <= k < i ==> list[k].name != bucket
    {
      if bucket == list[i].name {
        return true, None;
      }
      i := i + 1;
    }
    return false, None;
  }

  /** hasKey as a value: whether the exact key is among the keys listed
      under its directory. */
  function KeyFound(cloud: Cloud, bucket: string, key: string): Result<bool, Failure> {
    match BucketKeys(cloud, bucket, Dir(key))
    case Err(e) => Err(e)
    case Ok(keys) => Ok(exists k :: 0 <= k < |keys| && keys[k].key == key)
  }

  /** hasKey fails exactly when the listing fails, and otherwise is true
      exactly when a non-marker object with that very key is listed. */
  lemma KeyFoundMeans(cloud: Cloud, bucket: string, key: string)
    ensures var r := KeyFound(cloud, bucket, key);
            && (r.Err? <==> cloud.objects(bucket, Dir(key)).None?)
            && (r.Ok? ==> (r.value <==> exists o :: o in cloud.objects(bucket, Dir(key)).value && o.key == key && IsKey(o)))
  {
  }

  /** hasKey, as the source runs it. */
  method HasKey(cloud: Cloud, key: string, bucket: string) returns (found: bool, err: Option<Failure>)
    ensures err.None? <==> KeyFound(cloud, bucket, key).Ok?
    ensures err.None? ==> found == KeyFound(cloud, bucket, key).value
    ensures err.Some? ==> !found
  {
    var keys := ListBucketKeys(cloud, bucket, Dir(key));
    if keys.Err? {
      return false, Some(keys.error);
    }
    var list := keys.value;
    var i := 0;
    while i < |list|
      invariant 0 <= i <= |list|
      invariant forall k :: 0 <= k < i ==> list[k].key != key
    {
      if key == list[i].key {
        return true, None;
      }
      i := i + 1;
    }
    return false, None;
  }

  /** A directory marker is never found as a key. */
  lemma MarkerIsNoKey(cloud: Cloud, bucket: string, key: string)
    requires HasSuffix(key, "/")
    ensures KeyFound(cloud, bucket, key).Ok? ==> !KeyFound(cloud, bucket, key).value
  {
    KeyFoundMeans(cloud, bucket, key);
  }

  /** sizeOfBucket: the number of keys, directory markers not counted. */
  function SizeOfBucket(cloud: Cloud, name: string): (r: Result<nat, Failure>)
    ensures r.Err? <==> cloud.objects(name, "").None?
    ensures r.Ok? ==> r.value <= |cloud.objects(name, "").value|
  {
    match BucketKeys(cloud, name, "")
    case Err(e) => Err(e)
    case Ok(keys) => Ok(|keys|)
  }

  /** A bucket counts as empty exactly when everything listed in it is a
      directory marker. */
  lemma EmptyBucket(cloud: Cloud, name: string)
    requires cloud.objects(name, "").Some?
    ensures SizeOfBucket(cloud, name).value == 0 <==>
              forall o :: o in cloud.objects(name, "").value ==> HasSuffix(o.key, "/")
  {
    var keys := Filter(cloud.objects(name, "").value, IsKey);
    if |keys| != 0 {
      assert keys[0] in keys;
    }
  }

  /** getFile: the whole body, or an error when the request or reading the
      body fails, never both. */
  function GetFile(cloud: Cloud, bucket: string, key: string): (r: Result<Bytes, Failure>)
    ensures r.Ok? <==> cloud.getObject(bucket, key).Received? && !cloud.getObject(bucket, key).readFailed
    ensures r.Ok? ==> r.value == cloud.getObject(bucket, key).body
    ensures r.Err? ==> r.error == FetchFailed(bucket, key)
  {
    match cloud.getObject(bucket, key)
    case GetFailed => Err(FetchFailed(bucket, key))
    case Received(body, readFailed) => if readFailed then Err(FetchFailed(bucket, key)) else Ok(body)
  }

  /** The two generations fetch differently: getFile fails when reading the
      body fails where the older getBlob returns the body anyway, and
      getBlob asks for the key with a leading `/`. */
  lemma GetFileAndGetBlob(cloud: Cloud, bucket: string, path: string)
    ensures GetFile(cloud, bucket, "/" + path).Ok? ==>
              LegacyS3.GetBlob(cloud, bucket, path) == Some(GetFile(cloud, bucket, "/" + path).value)
    ensures LegacyS3.GetBlob(cloud, bucket, path).None? ==> GetFile(cloud, bucket, "/" + path).Err?
    ensures cloud.getObject(bucket, "/" + path).Received? && cloud.getObject(bucket, "/" + path).readFailed ==>
              LegacyS3.GetBlob(cloud, bucket, path).Some? && GetFile(cloud, bucket, "/" + path).Err?
  {
  }

  /** putFile: the file is opened and uploaded as it is, for S3 to encrypt
      with the KMS key id; the answer is (requests issued, succeeded). */
  function PutFile(cloud: Cloud, host: Host, bucket: string, key: string, path: string, kmsId: string): (r: (seq<Request>, bool))
    ensures host.read(path).None? ==> r == ([], false)
    ensures host.read(path).Some? ==>
              r.0 == [PutObject(bucket, key, host.read(path).value, kmsId)] && (r.1 <==> cloud.accepts(r.0[0]))
  {
    match host.read(path)
    case None => ([], false)
    case Some(content) =>
      var req := PutObject(bucket, key, content, kmsId);
      ([req], cloud.accepts(req))
  }
}
