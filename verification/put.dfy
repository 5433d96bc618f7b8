/** The put command of the command-line tool (put.go): every file under
    each argument is uploaded, for S3 to encrypt with the KMS key. */
module PutCmd {
  import opened Outcomes
  import opened Environment
  import opened GoStrings
  import opened Utils
  import opened Cmd

  datatype PutOptions = PutOptions(bucket: string, kms: string, flatten: bool, path: string)

  /** The key a local file is stored under: its own name; only its base
      name when flattening; its base name inside `path` when a path is
      given, with the path's trailing slashes dropped. */
  function KeyName(o: PutOptions, filename: string): string {
    var key := if o.flatten then Base(filename) else filename;
    if o.path != "" then TrimRightSlashes(o.path) + "/" + Base(key) else key
  }

  /** The three ways a key is formed, and with a path the join is a single
      `/` after a path that does not end in `/`. */
  lemma KeyNameCases(o: PutOptions, filename: string)
    ensures o.path == "" && !o.flatten ==> KeyName(o, filename) == filename
    ensures o.path == "" && o.flatten ==> KeyName(o, filename) == Base(filename)
    ensures o.path != "" && !o.flatten ==>
              var dir := TrimRightSlashes(o.path);
              && KeyName(o, filename) == dir + "/" + Base(filename)
              && (dir == "" || dir[|dir| - 1] != '/')
              && HasPrefix(o.path, dir)
  {
    var dir := TrimRightSlashes(o.path);
    assert o.path[..|dir|] == dir;
  }

  /** One file: uploaded under its key name; a failed upload stops the
      command. */
  function PutOne(o: PutOptions, cloud: Cloud, host: Host, filename: string): (r: (seq<Request>, Option<Failure>))
    ensures |r.0| <= 1
    ensures r.1.None? <==> |r.0| == 1 && cloud.accepts(r.0[0])
    ensures |r.0| == 1 ==> host.read(filename).Some? && r.0[0] == PutObject(o.bucket, KeyName(o, filename), host.read(filename).value, o.kms)
    ensures r.1.Some? ==> r.1.value == PutFailed(filename)
  {
    var (sent, ok) := PutFile(cloud, host, o.bucket, KeyName(o, filename), filename, o.kms);
    (sent, if ok then None else Some(PutFailed(filename)))
  }

  /** The files of one argument, in order, stopping at the first failure. */
  function PutList(o: PutOptions, cloud: Cloud, host: Host, files: seq<string>): (r: (seq<Request>, Option<Failure>))
    decreases |files|
  {
    if files == [] then ([], None)
    else
      var first := PutOne(o, cloud, host, files[0]);
      if first.1.Some? then first else After(first.0, PutList(o, cloud, host, files[1..]))
  }

  /** The arguments in order: each is expanded into its files, and a
      failed expansion stops the command. */
  function PutPaths(o: PutOptions, cloud: Cloud, host: Host, paths: seq<string>): (r: (seq<Request>, Option<Failure>))
    decreases |paths|
  {
    if paths == [] then ([], None)
    else match Expanded(host, paths[0])
      case Err(_) => ([], Some(ExpandFailed(paths[0])))
      case Ok(files) =>
        var first := PutList(o, cloud, host, files);
        if first.1.Some? then first else After(first.0, PutPaths(o, cloud, host, paths[1..]))
  }

  /** putFiles: flattening together with a path is refused before anything
      else; then the bucket must exist and some file must be given. */
  function PutFilesSpec(o: PutOptions, cloud: Cloud, host: Host, args: seq<string>): (r: (seq<Request>, Option<Failure>))
    ensures o.flatten && o.path != "" ==> r == ([], Some(FlattenWithPath))
    ensures (BucketFound(cloud, o.bucket) != Ok(true) || args == []) ==> r.0 == [] && r.1.Some?
  {
    if o.flatten && o.path != "" then ([], Some(FlattenWithPath))
    else match BucketFound(cloud, o.bucket)
      case Err(e) => ([], Some(e))
      case Ok(found) =>
        if !found then ([], Some(NoSuchBucket(o.bucket)))
        else if |args| == 0 then ([], Some(NoArguments))
        else PutPaths(o, cloud, host, GetPaths(args))
  }

  /** The refusal of flatten with a path does not depend on S3 or on the
      local files: no remote call is made. */
  lemma FlattenWithPathFirst(o: PutOptions, c1: Cloud, c2: Cloud, h1: Host, h2: Host, a1: seq<string>, a2: seq<string>)
    requires o.flatten && o.path != ""
    ensures PutFilesSpec(o, c1, h1, a1) == PutFilesSpec(o, c2, h2, a2)
  {
  }

  /** The inner loop of putFiles, as the source runs it. */
  method UploadFiles(o: PutOptions, cloud: Cloud, host: Host, files: seq<string>) returns (sent: seq<Request>, err: Option<Failure>)
    ensures (sent, err) == PutList(o, cloud, host, files)
  {
    sent := [];
    var i := 0;
    assert files[i..] == files;
    while i < |files|
      invariant 0 <= i <= |files|
      invariant PutList(o, cloud, host, files) == After(sent, PutList(o, cloud, host, files[i..]))
    {
      assert files[i..][0] == files[i] && files[i..][1..] == files[i + 1..];
      var step := PutOne(o, cloud, host, files[i]);
      if step.1.Some? {
        return sent + step.0, step.1;
      }
      var rest := PutList(o, cloud, host, files[i + 1..]);
      assert sent + (step.0 + rest.0) == (sent + step.0) + rest.0;
      sent := sent + step.0;
      i := i + 1;
    }
    assert sent + [] == sent;
    return sent, None;
  }

  /** putFiles, as the source runs it. */
  method PutFiles(o: PutOptions, cloud: Cloud, host: Host, args: seq<string>) returns (sent: seq<Request>, err: Option<Failure>)
    ensures (sent, err) == PutFilesSpec(o, cloud, host, args)
  {
    if o.flatten && o.path != "" {
      return [], Some(FlattenWithPath);
    }
    var found, e := HasBucket(cloud, o.bucket);
    if e.Some? {
      return [], e;
    } else if !found {
      return [], Some(NoSuchBucket(o.bucket));
    }
    if |args| == 0 {
      return [], Some(NoArguments);
    }
    var paths := GetPaths(args);
    sent := [];
    var i := 0;
    assert paths[i..] == paths;
    while i < |paths|
      invariant 0 <= i <= |paths|
      invariant PutFilesSpec(o, cloud, host, args) == After(sent, PutPaths(o, cloud, host, paths[i..]))
    {
      assert paths[i..][0] == paths[i] && paths[i..][1..] == paths[i + 1..];
      var files, failed := ExpandFiles(host, paths[i]);
      if failed.Some? {
        assert sent + [] == sent;
        return sent, Some(ExpandFailed(paths[i]));
      }
      var reqs, err' := UploadFiles(o, cloud, host, files);
      if err'.Some? {
        return sent + reqs, err';
      }
      var rest := PutPaths(o, cloud, host, paths[i + 1..]);
      assert sent + (reqs + rest.0) == (sent + reqs) + rest.0;
      sent := sent + reqs;
      i := i + 1;
    }
    assert sent + [] == sent;
    return sent, None;
  }

  /** Every request put issues is an upload of one of the files, under its
      key name, as read, with the KMS key; each but a failing last one was
      accepted. */
  predicate UploadsOf(o: PutOptions, cloud: Cloud, host: Host, sent: seq<Request>, files: seq<string>) {
    && |sent| <= |files|
    && (forall k :: 0 <= k < |sent| ==>
          && host.read(files[k]).Some?
          && sent[k] == PutObject(o.bucket, KeyName(o, files[k]), host.read(files[k]).value, o.kms))
    && (forall k :: 0 <= k < |sent| - 1 ==> cloud.accepts(sent[k]))
  }

  lemma UploadsOfCons(o: PutOptions, cloud: Cloud, host: Host, req: Request, sent: seq<Request>, files: seq<string>)
    requires files != [] && host.read(files[0]).Some? && cloud.accepts(req)
    requires req == PutObject(o.bucket, KeyName(o, files[0]), host.read(files[0]).value, o.kms)
    requires UploadsOf(o, cloud, host, sent, files[1..])
    ensures UploadsOf(o, cloud, host, [req] + sent, files)
  {
    var all := [req] + sent;
    forall k | 1 <= k < |all| ensures all[k] == sent[k - 1] && files[k] == files[1..][k - 1] {
    }
  }

  /** The uploads of a list of files, one request per file in order, up to
      the first failure; on success every file was uploaded and accepted. */
  lemma {:induction false} PutListUploads(o: PutOptions, cloud: Cloud, host: Host, files: seq<string>)
    ensures var r := PutList(o, cloud, host, files);
            && UploadsOf(o, cloud, host, r.0, files)
            && (r.1.None? ==> |r.0| == |files| && forall k :: 0 <= k < |r.0| ==> cloud.accepts(r.0[k]))
    decreases |files|
  {
    if files != [] {
      var first := PutOne(o, cloud, host, files[0]);
      if first.1.None? {
        PutListUploads(o, cloud, host, files[1..]);
        var rest := PutList(o, cloud, host, files[1..]);
        UploadsOfCons(o, cloud, host, first.0[0], rest.0, files);
        assert first.0 == [first.0[0]];
        var all := [first.0[0]] + rest.0;
        forall k | 1 <= k < |all| ensures all[k] == rest.0[k - 1] {
        }
      }
    }
  }
}
