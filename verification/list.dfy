/** The list command of the command-line tool (list.go): the keys under
    each path, one record per key shown. */
module ListCmd {
  import opened Outcomes
  import opened Environment
  import opened GoStrings
  import opened Seqs
  import opened Utils
  import opened Cmd

  /** The options of list; recursive is on unless turned off. */
  datatype ListOptions = ListOptions(bucket: string, recursive: bool, long: bool)

  function DefaultListOptions(bucket: string): (o: ListOptions)
    ensures o.recursive && o.bucket == bucket
  {
    ListOptions(bucket, true, false)
  }

  /** Whether a key listed under `p` is shown: always when recursive;
      otherwise only when no `/` follows the prefix. */
  predicate Shown(recursive: bool, p: string, key: string) {
    recursive || '/' !in TrimPrefix(key, p)
  }

  /** The test as a function on listed objects. */
  function ShownTest(recursive: bool, p: string): S3Object -> bool {
    (k: S3Object) => Shown(recursive, p, k.key)
  }

  /** The keys shown for one path, in listing order. */
  function ShownKeys(recursive: bool, p: string, keys: seq<S3Object>): seq<S3Object> {
    Filter(keys, ShownTest(recursive, p))
  }

  /** listFiles' loop: the shown keys of each path in turn, stopping at the
      first failed listing. */
  function ListPaths(o: ListOptions, cloud: Cloud, paths: seq<string>): (r: (seq<S3Object>, Option<Failure>))
    decreases |paths|
  {
    if paths == [] then ([], None)
    else match BucketKeys(cloud, o.bucket, paths[0])
      case Err(e) => ([], Some(e))
      case Ok(keys) => After(ShownKeys(o.recursive, paths[0], keys), ListPaths(o, cloud, paths[1..]))
  }

  /** One step of listFiles' loop, from position `i` of the paths. */
  lemma ListPathsStep(o: ListOptions, cloud: Cloud, paths: seq<string>, i: nat)
    requires i < |paths|
    ensures ListPaths(o, cloud, paths[i..])
              == match BucketKeys(cloud, o.bucket, paths[i])
                 case Err(e) => ([], Some(e))
                 case Ok(keys) => After(ShownKeys(o.recursive, paths[i], keys), ListPaths(o, cloud, paths[i + 1..]))
  {
    assert paths[i..][0] == paths[i] && paths[i..][1..] == paths[i + 1..];
  }

  /** listFiles */
  function ListFilesSpec(o: ListOptions, cloud: Cloud, args: seq<string>): (seq<S3Object>, Option<Failure>) {
    ListPaths(o, cloud, GetPaths(args))
  }

  /** listFiles' inner loop, as the source runs it: the keys of one path
      that pass the recursion test. */
  method ShowKeys(recursive: bool, p: string, keys: seq<S3Object>) returns (shown: seq<S3Object>)
    ensures shown == ShownKeys(recursive, p, keys)
  {
    shown := [];
    var j := 0;
    while j < |keys|
      invariant 0 <= j <= |keys|
      invariant shown == ShownKeys(recursive, p, keys[..j])
    {
      var k := keys[j];
      FilterSnoc(keys, j, ShownTest(recursive, p));
      if !(('/' in TrimPrefix(k.key, p)) && !recursive) {
        shown := shown + [k];
      }
      j := j + 1;
    }
    assert keys[..j] == keys;
  }

  /** listFiles, as the source runs it: one record per shown key. */
  method ListFiles(o: ListOptions, cloud: Cloud, args: seq<string>) returns (records: seq<S3Object>, err: Option<Failure>)
    ensures (records, err) == ListFilesSpec(o, cloud, args)
  {
    var paths := GetPaths(args);
    records := [];
    var i := 0;
    assert paths[i..] == paths;
    while i < |paths|
      invariant 0 <= i <= |paths|
      invariant ListPaths(o, cloud, paths) == After(records, ListPaths(o, cloud, paths[i..]))
    {
      ListPathsStep(o, cloud, paths, i);
      var p := paths[i];
      var files := ListBucketKeys(cloud, o.bucket, p);
      assert files == BucketKeys(cloud, o.bucket, p);
      if files.Err? {
        assert records + [] == records;
        return records, Some(files.error);
      }
      var shown := ShowKeys(o.recursive, p, files.value);
      AfterThen(records, shown, ListPaths(o, cloud, paths[i + 1..]));
      records := records + shown;
      i := i + 1;
    }
    assert records + [] == records;
    return records, None;
  }

  /** A recursive listing shows every key it lists. */
  lemma RecursiveShowsAll(p: string, keys: seq<S3Object>)
    ensures ShownKeys(true, p, keys) == keys
  {
    FilterAll(keys, ShownTest(true, p));
  }

  /** A non-recursive listing shows exactly the listed keys with no `/`
      after the prefix: for keys that start with the prefix, the direct
      entries below it. */
  lemma NonRecursiveShowsDirect(p: string, keys: seq<S3Object>, k: S3Object)
    requires HasPrefix(k.key, p)
    ensures k in ShownKeys(false, p, keys) <==> k in keys && exists rest :: k.key == p + rest && '/' !in rest
  {
    var rest := TrimPrefix(k.key, p);
    assert k.key == p + rest;
    if exists r :: k.key == p + r && '/' !in r {
      var r :| k.key == p + r && '/' !in r;
      assert r == k.key[|p|..] == rest;
    }
  }

  /** A path without a trailing `/` keeps the `/` that follows it in every
      key below it, so a non-recursive listing of a directory shows none of
      its files. */
  lemma NonRecursiveDirectoryWithoutSlash(p: string, name: string)
    ensures !Shown(false, p, p + "/" + name)
  {
    assert HasPrefix(p + "/" + name, p);
    assert TrimPrefix(p + "/" + name, p) == "/" + name;
    assert ("/" + name)[0] == '/';
  }
}
