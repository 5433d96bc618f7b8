/** The bucket commands of the first generation of the tool
    (src/github.com/UKHomeOffice/s3secrets/run_s3.go): put, get, cat, ls,
    rm and the bucket listing. */
module RunS3 {
  import opened Outcomes
  import opened Environment
  import opened GoStrings
  import opened LegacyUtils
  import opened LegacyS3
  import opened LegacyKms

  /** Why a command stops; each case is one of the messages the commands
      return. */
  datatype Failure =
    | NoSecrets                     // put: no files given
    | NoBucket                      // no bucket given
    | Missing(path: string)         // put: the file does not exist
    | StatError(path: string)       // put: isDirectory failed
    | NoKmsId                       // put: a file needs encrypting but no KMS key id is set
    | UploadFailed(key: string)     // put: reading, encrypting or uploading failed
    | NoPaths                       // get: no paths given
    | OutputDirFailed(dir: string)  // get: the output directory could not be created
    | ListFailed(path: string)      // get, ls: the listing failed
    | NothingFound(path: string)    // get: the listing is empty
    | FetchFailed(path: string)     // get, cat: the object could not be fetched
    | DecryptFailed(path: string)   // get, cat: KMS could not decrypt the object
    | WriteFailed(path: string)     // get: the output file could not be opened
    | NoFiles                       // cat: no files given
    | RemoveFailed(path: string)    // rm: the delete request failed
    | BucketsFailed                 // buckets: the bucket listing failed
    | InvalidFilter                 // buckets: the filter does not compile

  // ---------------------------------------------------------------------
  // filterPath
  // ---------------------------------------------------------------------

  /** filterPath: drops one leading `/`; the root ("/" or ".") becomes "". */
  function FilterPath(path: string): string {
    var p := TrimPrefix(path, "/");
    if p == "/" || p == "." then "" else p
  }

  /** The root spellings become the empty path; any other path loses only a
      leading `/`, and so no longer starts with `/` unless it started with two. */
  lemma FilterPathCases(path: string)
    ensures path in {"", "/", ".", "//", "/."} ==> FilterPath(path) == ""
    ensures path !in {"", "/", ".", "//", "/."} ==> FilterPath(path) == TrimPrefix(path, "/") != ""
    ensures !HasPrefix(path, "//") ==> !HasPrefix(FilterPath(path), "/")
  {
    var p := TrimPrefix(path, "/");
    if HasPrefix(path, "/") {
      assert path == "/" + p;
      if p == "" { assert path == "/"; }
      if p == "/" { assert path == "//"; }
      if p == "." { assert path == "/."; }
      if p != "" && p[0] == '/' {
        assert path[..2] == "//";
      }
    } else if path != "" {
      assert path[..1] == [path[0]];
      assert path[0] != '/';
    }
  }

  // ---------------------------------------------------------------------
  // put
  // ---------------------------------------------------------------------

  datatype PutOptions = PutOptions(suffix: string, bucket: string, path: string, kmsId: string)

  /** The key a file is uploaded under and the KMS key id it is encrypted
      with ("" for none): a file that already carries the suffix is uploaded
      as it is under its own name; any other file is encrypted and its key
      gains the suffix. */
  function UploadTarget(o: PutOptions, file: string): (string, string) {
    var name := TrimSuffix(o.path, "/") + "/" + Base(file);
    var fileKey := name + o.suffix;
    if HasSuffix(file, o.suffix) then (TrimSuffix(fileKey, o.suffix), "") else (fileKey, o.kmsId)
  }

  /** The key is the file's base name under the path, with the suffix
      appended unless the file already carries it; such a file gets no
      KMS key id. */
  lemma UploadTargetName(o: PutOptions, file: string)
    ensures var name := TrimSuffix(o.path, "/") + "/" + Base(file);
            var t := UploadTarget(o, file);
            if HasSuffix(file, o.suffix) then t == (name, "") else t == (name + o.suffix, o.kmsId)
  {
    TrimSuffixOfAppended(TrimSuffix(o.path, "/") + "/" + Base(file), o.suffix);
  }

  /** Every key a file is uploaded under ends in the suffix, so a later
      listing shows it as encrypted and a later get decrypts it. */
  lemma UploadKeyHasSuffix(o: PutOptions, file: string)
    requires file != "" && file[|file| - 1] != '/' && '/' !in o.suffix
    ensures HasSuffix(UploadTarget(o, file).0, o.suffix)
  {
    var name := TrimSuffix(o.path, "/") + "/" + Base(file);
    if HasSuffix(file, o.suffix) {
      SuffixOfBase(file, o.suffix);
      TrimSuffixOfJoined(TrimSuffix(o.path, "/") + "/", Base(file), o.suffix);
    } else {
      TrimSuffixOfAppended(name, o.suffix);
    }
  }

  /** uploadFile: reads the file, encrypts it when a key id is given, and
      uploads the result under `key`. The answer is (requests issued, ok). */
  function UploadFile(o: PutOptions, cloud: Cloud, host: Host, file: string, key: string, kid: string): (r: (seq<Request>, bool))
    ensures |r.0| <= 1
    ensures r.1 ==> |r.0| == 1 && cloud.accepts(r.0[0])
    ensures forall k :: 0 <= k < |r.0| ==>
              r.0[k].PutObject? && r.0[k].bucket == o.bucket && r.0[k].key == key && r.0[k].sseKmsId == ""
    ensures kid == "" && host.read(file).Some? ==> r.0 == [PutObject(o.bucket, key, host.read(file).value, "")]
    ensures kid != "" && host.read(file).Some? && cloud.encrypt(kid, host.read(file).value).Some? ==>
              r.0 == [PutObject(o.bucket, key, cloud.encrypt(kid, host.read(file).value).value, "")]
    ensures host.read(file).None? ==> r == ([], false)
  {
    var body := if kid == "" then host.read(file) else EncryptFile(cloud, host, kid, file);
    match body
    case None => ([], false)
    case Some(data) =>
      var req := PutObject(o.bucket, key, data, "");
      ([req], cloud.accepts(req))
  }

  /** One file of put's inner loop: the check that a file needing
      encryption has a KMS key id, then the upload. */
  function UploadOne(o: PutOptions, cloud: Cloud, host: Host, file: string): (r: (seq<Request>, Option<Failure>))
    ensures |r.0| <= 1
    ensures r.1.None? ==> |r.0| == 1 && cloud.accepts(r.0[0])
    ensures forall k :: 0 <= k < |r.0| ==>
              r.0[k].PutObject? && r.0[k].bucket == o.bucket && r.0[k].key == UploadTarget(o, file).0
  {
    var (key, kid) := UploadTarget(o, file);
    if !HasSuffix(file, o.suffix) && o.kmsId == "" then ([], Some(NoKmsId))
    else
      var (sent, ok) := UploadFile(o, cloud, host, file, key, kid);
      (sent, if ok then None else Some(UploadFailed(key)))
  }

  /** The inner loop of put: each file in turn, stopping at the first
      failure. */
  function PutUploads(o: PutOptions, cloud: Cloud, host: Host, uploads: seq<string>): (r: (seq<Request>, Option<Failure>))
    decreases |uploads|
  {
    if uploads == [] then ([], None)
    else
      var first := UploadOne(o, cloud, host, uploads[0]);
      if first.1.Some? then first else After(first.0, PutUploads(o, cloud, host, uploads[1..]))
  }

  /** The files put uploads for one argument, as the source builds the list:
      the argument itself first, then, for a directory, the walk listing. */
  function UploadListAsWritten(host: Host, path: string): (r: Result<seq<string>, Failure>)
    ensures r.Ok? ==> |r.value| >= 1 && r.value[0] == path
  {
    if !FileExists(host, path) then Err(Missing(path))
    else
      var (directory, failed) := IsDirectory(host, path);
      if failed then Err(StatError(path))
      else Ok([path] + (if directory then NonDirectories(host.walk(path)) else []))
  }

  /** The files put uploads for one argument: the argument when it is not a
      directory, the files the walk lists when it is. */
  function UploadList(host: Host, path: string): (r: Result<seq<string>, Failure>)
    ensures r.Err? <==> !FileExists(host, path) || IsDirectory(host, path).1
    ensures r.Ok? && !IsDirectory(host, path).0 ==> r.value == [path]
    ensures r.Ok? && IsDirectory(host, path).0 ==>
              forall f :: f in r.value <==> exists e :: e in host.walk(path) && e.kind != Directory && e.path == f
  {
    if !FileExists(host, path) then Err(Missing(path))
    else
      var (directory, failed) := IsDirectory(host, path);
      if failed then Err(StatError(path))
      else if directory then Ok(NonDirectories(host.walk(path)))
      else Ok([path])
  }

  /** As written, putting a directory always tries to upload the directory
      itself first; reading a directory fails, so the command stops with an
      error before any file is uploaded, whatever the directory holds. */
  lemma DirectoryPutAsWritten(o: PutOptions, cloud: Cloud, host: Host, dir: string, more: seq<string>)
    requires IsDirectory(host, dir) == (true, false)
    requires host.read(dir).None?
    requires o.bucket != ""
    ensures UploadListAsWritten(host, dir).Ok? && UploadListAsWritten(host, dir).value[0] == dir
    ensures var r := RunPut(o, cloud, host, [dir] + more);
            r.0 == [] && r.1.Some?
  {
    ExistenceAndDirectory(host, dir);
    assert ([dir] + more)[0] == dir;
  }

  /** With the list corrected, a directory is never among the uploads
      (when the walk reports it as a directory), and its files are. */
  lemma DirectoryPutCorrected(host: Host, dir: string)
    requires IsDirectory(host, dir) == (true, false)
    requires forall e :: e in host.walk(dir) && e.path == dir ==> e.kind == Directory
    ensures UploadList(host, dir).Ok?
    ensures dir !in UploadList(host, dir).value
    ensures UploadList(host, dir).value == NonDirectories(host.walk(dir))
  {
    ExistenceAndDirectory(host, dir);
  }

  /** One argument of put's outer loop, with the upload list as the source
      builds it. */
  function PutPath(o: PutOptions, cloud: Cloud, host: Host, path: string): (r: (seq<Request>, Option<Failure>)) {
    match UploadListAsWritten(host, path)
    case Err(e) => ([], Some(e))
    case Ok(uploads) => PutUploads(o, cloud, host, uploads)
  }

  /** The outer loop of put: each argument in turn, stopping at the first
      failure. */
  function PutPaths(o: PutOptions, cloud: Cloud, host: Host, files: seq<string>): (r: (seq<Request>, Option<Failure>))
    decreases |files|
  {
    if files == [] then ([], None)
    else
      var first := PutPath(o, cloud, host, files[0]);
      if first.1.Some? then first else After(first.0, PutPaths(o, cloud, host, files[1..]))
  }

  /** runPutSecretsCommand */
  function RunPut(o: PutOptions, cloud: Cloud, host: Host, files: seq<string>): (seq<Request>, Option<Failure>) {
    if |files| == 0 then ([], Some(NoSecrets))
    else if o.bucket == "" then ([], Some(NoBucket))
    else PutPaths(o, cloud, host, files)
  }

  /** The inner loop of put, as the source runs it. */
  method UploadAll(o: PutOptions, cloud: Cloud, host: Host, uploads: seq<string>)
    returns (sent: seq<Request>, err: Option<Failure>)
    ensures (sent, err) == PutUploads(o, cloud, host, uploads)
  {
    sent := [];
    var i := 0;
    assert uploads[i..] == uploads;
    while i < |uploads|
      invariant 0 <= i <= |uploads|
      invariant PutUploads(o, cloud, host, uploads) == After(sent, PutUploads(o, cloud, host, uploads[i..]))
    {
      assert uploads[i..][0] == uploads[i] && uploads[i..][1..] == uploads[i + 1..];
      var step := UploadOne(o, cloud, host, uploads[i]);
      if step.1.Some? {
        return sent + step.0, step.1;
      }
      var rest := PutUploads(o, cloud, host, uploads[i + 1..]);
      assert sent + (step.0 + rest.0) == (sent + step.0) + rest.0;
      sent := sent + step.0;
      i := i + 1;
    }
    assert uploads[i..] == [] && sent + [] == sent;
    return sent, None;
  }

  /** runPutSecretsCommand, as the source runs it. */
  method RunPutSecrets(o: PutOptions, cloud: Cloud, host: Host, files: seq<string>)
    returns (sent: seq<Request>, err: Option<Failure>)
    ensures (sent, err) == RunPut(o, cloud, host, files)
  {
    if |files| == 0 {
      return [], Some(NoSecrets);
    }
    if o.bucket == "" {
      return [], Some(NoBucket);
    }
    sent := [];
    var i := 0;
    assert files[i..] == files;
    while i < |files|
      invariant 0 <= i <= |files|
      invariant PutPaths(o, cloud, host, files) == After(sent, PutPaths(o, cloud, host, files[i..]))
    {
      assert files[i..][0] == files[i] && files[i..][1..] == files[i + 1..];
      var uploads := UploadListAsWritten(host, files[i]);
      if uploads.Err? {
        assert sent + [] == sent;
        return sent, Some(uploads.error);
      }
      var s, e := UploadAll(o, cloud, host, uploads.value);
      assert (s, e) == PutPath(o, cloud, host, files[i]);
      if e.Some? {
        return sent + s, e;
      }
      var rest := PutPaths(o, cloud, host, files[i + 1..]);
      assert sent + (s + rest.0) == (sent + s) + rest.0;
      sent := sent + s;
      i := i + 1;
    }
    assert files[i..] == [] && sent + [] == sent;
    return sent, None;
  }

  /** Nothing is uploaded, and nothing is read, unless files and a bucket
      are given; the two checks come in that order. */
  lemma PutValidation(o: PutOptions, cloud: Cloud, host: Host, files: seq<string>)
    ensures files == [] ==> RunPut(o, cloud, host, files) == ([], Some(NoSecrets))
    ensures files != [] && o.bucket == "" ==> RunPut(o, cloud, host, files) == ([], Some(NoBucket))
  {
  }

  /** The put loop stops at the first failing file: the files after it are
      never read, encrypted or uploaded. */
  lemma {:induction false} PutUploadsAppend(o: PutOptions, cloud: Cloud, host: Host, a: seq<string>, b: seq<string>)
    ensures var first := PutUploads(o, cloud, host, a);
            PutUploads(o, cloud, host, a + b)
              == if first.1.Some? then first else After(first.0, PutUploads(o, cloud, host, b))
    decreases |a|
  {
    if a == [] {
      assert a + b == b;
    } else {
      assert (a + b)[0] == a[0] && (a + b)[1..] == a[1..] + b;
      PutUploadsAppend(o, cloud, host, a[1..], b);
      var step := UploadOne(o, cloud, host, a[0]);
      var rest := PutUploads(o, cloud, host, a[1..]);
      var tail := PutUploads(o, cloud, host, b);
      assert step.0 + (rest.0 + tail.0) == (step.0 + rest.0) + tail.0;
    }
  }

  /** `req` is the accepted upload of `file`. */
  predicate UploadedAs(o: PutOptions, cloud: Cloud, req: Request, file: string) {
    req.PutObject? && req.bucket == o.bucket && req.key == UploadTarget(o, file).0 && cloud.accepts(req)
  }

  /** `sent` holds the accepted uploads of `files`, one each, in order. */
  predicate UploadedAll(o: PutOptions, cloud: Cloud, sent: seq<Request>, files: seq<string>)
    decreases |files|
  {
    |sent| == |files| && (files != [] ==> UploadedAs(o, cloud, sent[0], files[0]) && UploadedAll(o, cloud, sent[1..], files[1..]))
  }

  lemma UploadedAllCons(o: PutOptions, cloud: Cloud, req: Request, sent: seq<Request>, files: seq<string>)
    requires files != [] && UploadedAs(o, cloud, req, files[0]) && UploadedAll(o, cloud, sent, files[1..])
    ensures UploadedAll(o, cloud, [req] + sent, files)
  {
    assert ([req] + sent)[0] == req && ([req] + sent)[1..] == sent;
  }

  /** Uploads in that relation pair up position by position: the k-th
      request is the accepted upload of the k-th file. */
  lemma {:induction false} UploadedAllAt(o: PutOptions, cloud: Cloud, sent: seq<Request>, files: seq<string>, k: int)
    requires UploadedAll(o, cloud, sent, files) && 0 <= k < |files|
    ensures |sent| == |files| && UploadedAs(o, cloud, sent[k], files[k])
    decreases |files|
  {
    if k > 0 {
      UploadedAllAt(o, cloud, sent[1..], files[1..], k - 1);
    }
  }

  /** A put that succeeds has issued exactly one accepted upload per file,
      in order, each under the key UploadTarget gives it. */
  lemma {:induction false} PutUploadsComplete(o: PutOptions, cloud: Cloud, host: Host, uploads: seq<string>)
    ensures var r := PutUploads(o, cloud, host, uploads);
            r.1.None? ==> UploadedAll(o, cloud, r.0, uploads)
    decreases |uploads|
  {
    if uploads != [] {
      PutUploadsComplete(o, cloud, host, uploads[1..]);
      var step := UploadOne(o, cloud, host, uploads[0]);
      if step.1.None? {
        var rest := PutUploads(o, cloud, host, uploads[1..]);
        assert step.0 == [step.0[0]];
        if rest.1.None? {
          UploadedAllCons(o, cloud, step.0[0], rest.0, uploads);
        }
      }
    }
  }

  /** Every request of `sent` but the last was accepted. */
  predicate AcceptedButLast(cloud: Cloud, sent: seq<Request>) {
    forall k :: 0 <= k < |sent| - 1 ==> cloud.accepts(sent[k])
  }

  lemma AcceptedButLastCons(cloud: Cloud, req: Request, sent: seq<Request>)
    requires cloud.accepts(req) && AcceptedButLast(cloud, sent)
    ensures AcceptedButLast(cloud, [req] + sent)
  {
    var all := [req] + sent;
    forall k | 1 <= k < |all| - 1 ensures cloud.accepts(all[k]) {
      assert all[k] == sent[k - 1];
    }
  }

  /** Every upload a put issued was accepted, except possibly the last one,
      the one that stopped it. */
  lemma {:induction false} PutUploadsAccepted(o: PutOptions, cloud: Cloud, host: Host, uploads: seq<string>)
    ensures AcceptedButLast(cloud, PutUploads(o, cloud, host, uploads).0)
    decreases |uploads|
  {
    if uploads != [] {
      PutUploadsAccepted(o, cloud, host, uploads[1..]);
      var step := UploadOne(o, cloud, host, uploads[0]);
      if step.1.None? {
        assert step.0 == [step.0[0]];
        AcceptedButLastCons(cloud, step.0[0], PutUploads(o, cloud, host, uploads[1..]).0);
      }
    }
  }

  /** A file that already carries the suffix is uploaded unencrypted, byte
      for byte, whatever the KMS key id; any other file is uploaded as its
      ciphertext under the configured key id. */
  lemma UploadContent(o: PutOptions, cloud: Cloud, host: Host, file: string, content: Bytes)
    requires host.read(file) == Some(content)
    ensures var (key, kid) := UploadTarget(o, file);
            HasSuffix(file, o.suffix) ==> UploadFile(o, cloud, host, file, key, kid).0 == [PutObject(o.bucket, key, content, "")]
    ensures var (key, kid) := UploadTarget(o, file);
            !HasSuffix(file, o.suffix) && o.kmsId != "" && cloud.encrypt(o.kmsId, content).Some? ==>
              UploadFile(o, cloud, host, file, key, kid).0 == [PutObject(o.bucket, key, cloud.encrypt(o.kmsId, content).value, "")]
  {
  }

  // ---------------------------------------------------------------------
  // get
  // ---------------------------------------------------------------------

  datatype GetOptions = GetOptions(suffix: string, bucket: string, outputDir: string,
                                   recursive: bool, dryRun: bool, noDecrypt: bool)

  /** Where an object is saved: its base name inside the output directory,
      without the suffix when it is decrypted. */
  function Destination(o: GetOptions, key: string): string {
    var p := o.outputDir + "/" + Base(key);
    if o.noDecrypt then p else TrimSuffix(p, o.suffix)
  }

  /** A decrypted object whose base name carries the suffix is saved under
      that base name without it; a kept-encrypted one under its base name. */
  lemma DestinationName(o: GetOptions, key: string)
    ensures o.noDecrypt ==> Destination(o, key) == o.outputDir + "/" + Base(key)
    ensures !o.noDecrypt && HasSuffix(Base(key), o.suffix) ==>
              Destination(o, key) == o.outputDir + "/" + TrimSuffix(Base(key), o.suffix)
  {
    if !o.noDecrypt && HasSuffix(Base(key), o.suffix) {
      TrimSuffixOfJoined(o.outputDir + "/", Base(key), o.suffix);
    }
  }

  /** One entry of get's inner loop: directory entries are skipped; a file is
      fetched, decrypted unless told not to, and written. A failure changes
      nothing. */
  function GetEntry(o: GetOptions, cloud: Cloud, host: Host, disk: Disk, e: Entry): (r: (Disk, Option<Failure>))
    ensures r.1.Some? ==> r.0 == disk
    ensures HasSuffix(e.path, "/") ==> r == (disk, None)
    ensures r.0.dirs == disk.dirs
  {
    if HasSuffix(e.path, "/") then (disk, None)
    else match GetBlob(cloud, o.bucket, e.path)
      case None => (disk, Some(FetchFailed(e.path)))
      case Some(blob) =>
        var content := if o.noDecrypt then Some(blob) else cloud.decrypt(blob);
        if content.None? then (disk, Some(DecryptFailed(e.path)))
        else
          var dest := Destination(o, e.path);
          var (d, failed) := WriteFile(disk, host, dest, content.value, o.dryRun);
          (d, if failed then Some(WriteFailed(dest)) else None)
  }

  /** get's inner loop: the entries in listing order, stopping at the first
      failure. */
  function GetEntries(o: GetOptions, cloud: Cloud, host: Host, disk: Disk, entries: seq<Entry>): (r: (Disk, Option<Failure>))
    decreases |entries|
  {
    if entries == [] then (disk, None)
    else
      var first := GetEntry(o, cloud, host, disk, entries[0]);
      if first.1.Some? then first else GetEntries(o, cloud, host, first.0, entries[1..])
  }

  /** get's outer loop: each path is normalised and listed; a failed or
      empty listing stops the command. */
  function GetPaths(o: GetOptions, cloud: Cloud, re: Regexp, host: Host, disk: Disk, paths: seq<string>): (r: (Disk, Option<Failure>))
    decreases |paths|
  {
    if paths == [] then (disk, None)
    else
      var path := FilterPath(paths[0]);
      match ListObjectsSpec(cloud, re, o.bucket, path, o.recursive)
      case None => (disk, Some(ListFailed(path)))
      case Some(files) =>
        if |files| == 0 then (disk, Some(NothingFound(path)))
        else
          var first := GetEntries(o, cloud, host, disk, files);
          if first.1.Some? then first else GetPaths(o, cloud, re, host, first.0, paths[1..])
  }

  /** runGetSecretsCommand: a bucket and at least one path are required; a
      missing output directory is created first. */
  function RunGet(o: GetOptions, cloud: Cloud, re: Regexp, host: Host, disk: Disk, paths: seq<string>): (Disk, Option<Failure>) {
    if o.bucket == "" then (disk, Some(NoBucket))
    else if |paths| == 0 then (disk, Some(NoPaths))
    else if !FileExists(host, o.outputDir) && host.mkdirFails(o.outputDir) then (disk, Some(OutputDirFailed(o.outputDir)))
    else
      var d := if FileExists(host, o.outputDir) then disk else disk.(dirs := disk.dirs + {o.outputDir});
      GetPaths(o, cloud, re, host, d, paths)
  }

  /** get's inner loop, as the source runs it. */
  method SaveEntries(o: GetOptions, cloud: Cloud, host: Host, disk: Disk, entries: seq<Entry>)
    returns (d: Disk, err: Option<Failure>)
    ensures (d, err) == GetEntries(o, cloud, host, disk, entries)
  {
    d := disk;
    var i := 0;
    assert entries[i..] == entries;
    while i < |entries|
      invariant 0 <= i <= |entries|
      invariant GetEntries(o, cloud, host, disk, entries) == GetEntries(o, cloud, host, d, entries[i..])
    {
      assert entries[i..][0] == entries[i] && entries[i..][1..] == entries[i + 1..];
      var step := GetEntry(o, cloud, host, d, entries[i]);
      if step.1.Some? {
        return step.0, step.1;
      }
      d := step.0;
      i := i + 1;
    }
    return d, None;
  }

  /** runGetSecretsCommand, as the source runs it. */
  method RunGetSecrets(o: GetOptions, cloud: Cloud, re: Regexp, host: Host, disk: Disk, paths: seq<string>)
    returns (d: Disk, err: Option<Failure>)
    ensures (d, err) == RunGet(o, cloud, re, host, disk, paths)
  {
    if o.bucket == "" {
      return disk, Some(NoBucket);
    }
    if |paths| == 0 {
      return disk, Some(NoPaths);
    }
    d := disk;
    if !FileExists(host, o.outputDir) {
      if host.mkdirFails(o.outputDir) {
        return disk, Some(OutputDirFailed(o.outputDir));
      }
      d := d.(dirs := d.dirs + {o.outputDir});
    }
    var i := 0;
    assert paths[i..] == paths;
    while i < |paths|
      invariant 0 <= i <= |paths|
      invariant RunGet(o, cloud, re, host, disk, paths) == GetPaths(o, cloud, re, host, d, paths[i..])
    {
      assert paths[i..][0] == paths[i] && paths[i..][1..] == paths[i + 1..];
      var path := FilterPath(paths[i]);
      var files := ListObjects(cloud, re, o.bucket, path, o.recursive);
      if files.None? {
        return d, Some(ListFailed(path));
      }
      if |files.value| == 0 {
        return d, Some(NothingFound(path));
      }
      var d', e := SaveEntries(o, cloud, host, d, files.value);
      if e.Some? {
        return d', e;
      }
      d := d';
      i := i + 1;
    }
    return d, None;
  }

  /** get stops at the first entry that fails: the entries after it are not
      fetched, and what was written before it stays written. */
  lemma {:induction false} GetEntriesAppend(o: GetOptions, cloud: Cloud, host: Host, disk: Disk, a: seq<Entry>, b: seq<Entry>)
    ensures var first := GetEntries(o, cloud, host, disk, a);
            GetEntries(o, cloud, host, disk, a + b)
              == if first.1.Some? then first else GetEntries(o, cloud, host, first.0, b)
    decreases |a|
  {
    if a == [] {
      assert a + b == b;
    } else {
      assert (a + b)[0] == a[0] && (a + b)[1..] == a[1..] + b;
      var step := GetEntry(o, cloud, host, disk, a[0]);
      if step.1.None? {
        GetEntriesAppend(o, cloud, host, step.0, a[1..], b);
      }
    }
  }

  /** The output files of the non-directory entries. */
  function Destinations(o: GetOptions, entries: seq<Entry>): set<string> {
    set k | 0 <= k < |entries| && !HasSuffix(entries[k].path, "/") :: Destination(o, entries[k].path)
  }

  /** `d` differs from `disk` at most in the files named by `paths`. */
  ghost predicate FilesOnlyAt(d: Disk, disk: Disk, paths: set<string>) {
    && d.dirs == disk.dirs
    && forall p :: p !in paths ==> (p in d.files <==> p in disk.files) && (p in disk.files ==> d.files[p] == disk.files[p])
  }

  lemma FilesOnlyAtTrans(d2: Disk, d1: Disk, disk: Disk, p1: set<string>, p2: set<string>)
    requires FilesOnlyAt(d1, disk, p1) && FilesOnlyAt(d2, d1, p2)
    ensures FilesOnlyAt(d2, disk, p1 + p2)
  {
  }

  lemma DestinationsCons(o: GetOptions, entries: seq<Entry>)
    requires entries != []
    ensures Destinations(o, entries)
         == Destinations(o, entries[1..]) + (if HasSuffix(entries[0].path, "/") then {} else {Destination(o, entries[0].path)})
  {
    var rest := entries[1..];
    forall x | x in Destinations(o, rest) ensures x in Destinations(o, entries) {
      var k :| 0 <= k < |rest| && !HasSuffix(rest[k].path, "/") && x == Destination(o, rest[k].path);
      assert rest[k] == entries[k + 1];
    }
  }

  /** One entry writes at most its own output file. */
  lemma GetEntryWritesOnlyDestination(o: GetOptions, cloud: Cloud, host: Host, disk: Disk, e: Entry)
    ensures FilesOnlyAt(GetEntry(o, cloud, host, disk, e).0, disk,
                        if HasSuffix(e.path, "/") then {} else {Destination(o, e.path)})
  {
  }

  /** get writes nothing but the output files of the entries it saves: no
      other file is created, changed or removed, and no directory is made. */
  lemma {:induction false} GetEntriesWritesOnlyDestinations(o: GetOptions, cloud: Cloud, host: Host, disk: Disk, entries: seq<Entry>)
    ensures FilesOnlyAt(GetEntries(o, cloud, host, disk, entries).0, disk, Destinations(o, entries))
    decreases |entries|
  {
    if entries != [] {
      DestinationsCons(o, entries);
      var step := GetEntry(o, cloud, host, disk, entries[0]);
      var here: set<string> := if HasSuffix(entries[0].path, "/") then {} else {Destination(o, entries[0].path)};
      GetEntryWritesOnlyDestination(o, cloud, host, disk, entries[0]);
      if step.1.None? {
        GetEntriesWritesOnlyDestinations(o, cloud, host, step.0, entries[1..]);
        FilesOnlyAtTrans(GetEntries(o, cloud, host, step.0, entries[1..]).0, step.0, disk, here, Destinations(o, entries[1..]));
      }
    }
  }

  /** A dry run writes no file: the decrypted secrets only go to standard
      output. */
  lemma {:induction false} GetDryRunWritesNoFile(o: GetOptions, cloud: Cloud, host: Host, disk: Disk, entries: seq<Entry>)
    requires o.dryRun
    ensures GetEntries(o, cloud, host, disk, entries).0.files == disk.files
    decreases |entries|
  {
    if entries != [] {
      var step := GetEntry(o, cloud, host, disk, entries[0]);
      if step.1.None? {
        GetDryRunWritesNoFile(o, cloud, host, step.0, entries[1..]);
      }
    }
  }

  /** A successfully saved file holds the object as fetched, or its
      decryption; every object is decrypted unless told not to, whatever its
      name. */
  lemma GetEntrySaves(o: GetOptions, cloud: Cloud, host: Host, disk: Disk, e: Entry, blob: Bytes)
    requires !HasSuffix(e.path, "/") && !o.dryRun
    requires GetBlob(cloud, o.bucket, e.path) == Some(blob)
    ensures var r := GetEntry(o, cloud, host, disk, e);
            var dest := Destination(o, e.path);
            && (o.noDecrypt && !host.openFails(dest) ==> r.1.None? && r.0.files[dest] == blob)
            && (!o.noDecrypt && cloud.decrypt(blob).None? ==> r == (disk, Some(DecryptFailed(e.path))))
            && (!o.noDecrypt && cloud.decrypt(blob).Some? && !host.openFails(dest) ==>
                  r.1.None? && r.0.files[dest] == cloud.decrypt(blob).value)
  {
  }

  // ---------------------------------------------------------------------
  // cat
  // ---------------------------------------------------------------------

  datatype CatOptions = CatOptions(suffix: string, bucket: string, noDecrypt: bool)

  /** cat decrypts an object only when it carries the suffix and decryption
      is not turned off. */
  predicate Decrypts(o: CatOptions, path: string) {
    !o.noDecrypt && HasSuffix(path, o.suffix)
  }

  /** What cat prints for one (normalised) path. */
  function CatOne(o: CatOptions, cloud: Cloud, path: string): Result<Bytes, Failure> {
    match GetBlob(cloud, o.bucket, path)
    case None => Err(FetchFailed(path))
    case Some(data) =>
      if !Decrypts(o, path) then Ok(data)
      else match cloud.decrypt(data)
        case None => Err(DecryptFailed(path))
        case Some(plain) => Ok(plain)
  }

  /** A path cat does not decrypt is printed as stored: KMS is never asked,
      so its answers make no difference, and only a failed fetch is an
      error. */
  lemma CatPlainIgnoresKms(o: CatOptions, cloud: Cloud, kms: Bytes -> Option<Bytes>, path: string)
    requires !Decrypts(o, path)
    ensures CatOne(o, cloud, path) == CatOne(o, cloud.(decrypt := kms), path)
    ensures CatOne(o, cloud, path).Ok? <==> GetBlob(cloud, o.bucket, path).Some?
  {
    assert GetBlob(cloud, o.bucket, path) == GetBlob(cloud.(decrypt := kms), o.bucket, path);
  }

  /** Where cat and get decrypt alike (both keep the object encrypted, or
      the path carries the suffix), cat prints exactly what get saves for
      that key: cat fails exactly when get's entry fails, with the same
      error and get changing nothing, and otherwise the saved file holds
      the printed bytes. */
  lemma CatMatchesGet(co: CatOptions, go: GetOptions, cloud: Cloud, host: Host, disk: Disk, e: Entry)
    requires co.bucket == go.bucket && co.noDecrypt == go.noDecrypt
    requires co.noDecrypt || HasSuffix(e.path, co.suffix)
    requires !HasSuffix(e.path, "/") && !go.dryRun && !host.openFails(Destination(go, e.path))
    ensures var c := CatOne(co, cloud, e.path);
            var g := GetEntry(go, cloud, host, disk, e);
            && (c.Ok? <==> g.1.None?)
            && (c.Ok? ==> g.0.files[Destination(go, e.path)] == c.value)
            && (c.Err? ==> g == (disk, Some(c.error)))
  {
    match GetBlob(cloud, co.bucket, e.path)
    case None =>
    case Some(blob) =>
      GetEntrySaves(go, cloud, host, disk, e, blob);
  }

  /** cat's loop: the bytes printed, stopping at the first failure. */
  function CatPaths(o: CatOptions, cloud: Cloud, paths: seq<string>): (r: (Bytes, Option<Failure>))
    decreases |paths|
  {
    if paths == [] then ([], None)
    else match CatOne(o, cloud, FilterPath(paths[0]))
      case Err(e) => ([], Some(e))
      case Ok(data) =>
        After(data, CatPaths(o, cloud, paths[1..]))
  }

  /** runCatSecretsCommand */
  function RunCat(o: CatOptions, cloud: Cloud, paths: seq<string>): (Bytes, Option<Failure>) {
    if o.bucket == "" then ([], Some(NoBucket))
    else if |paths| == 0 then ([], Some(NoFiles))
    else CatPaths(o, cloud, paths)
  }

  /** One step of cat's loop, from position `i` of the paths. */
  lemma CatPathsStep(o: CatOptions, cloud: Cloud, paths: seq<string>, i: nat)
    requires i < |paths|
    ensures CatPaths(o, cloud, paths[i..])
              == match CatOne(o, cloud, FilterPath(paths[i]))
                 case Err(e) => ([], Some(e))
                 case Ok(data) => After(data, CatPaths(o, cloud, paths[i + 1..]))
  {
    assert paths[i..][0] == paths[i] && paths[i..][1..] == paths[i + 1..];
  }

  /** runCatSecretsCommand, as the source runs it: returns the bytes written
      to standard output. */
  method RunCatSecrets(o: CatOptions, cloud: Cloud, paths: seq<string>) returns (out: Bytes, err: Option<Failure>)
    ensures (out, err) == RunCat(o, cloud, paths)
  {
    if o.bucket == "" {
      return [], Some(NoBucket);
    }
    if |paths| == 0 {
      return [], Some(NoFiles);
    }
    out := [];
    var i := 0;
    assert paths[i..] == paths;
    while i < |paths|
      invariant 0 <= i <= |paths|
      invariant CatPaths(o, cloud, paths) == After(out, CatPaths(o, cloud, paths[i..]))
    {
      CatPathsStep(o, cloud, paths, i);
      var path := FilterPath(paths[i]);
      var data := CatOne(o, cloud, path);
      if data.Err? {
        assert out + [] == out;
        return out, Some(data.error);
      }
      AfterThen(out, data.value, CatPaths(o, cloud, paths[i + 1..]));
      out := out + data.value;
      i := i + 1;
    }
    assert out + [] == out;
    return out, None;
  }

  /** On success cat prints the objects one after the other, in argument
      order; a failure keeps what was printed before it. */
  lemma {:induction false} CatPathsAppend(o: CatOptions, cloud: Cloud, a: seq<string>, b: seq<string>)
    ensures var first := CatPaths(o, cloud, a);
            var second := CatPaths(o, cloud, b);
            CatPaths(o, cloud, a + b) == if first.1.Some? then first else (first.0 + second.0, second.1)
    decreases |a|
  {
    if a == [] {
      assert a + b == b;
      assert [] + CatPaths(o, cloud, b).0 == CatPaths(o, cloud, b).0;
    } else {
      assert (a + b)[0] == a[0] && (a + b)[1..] == a[1..] + b;
      CatPathsAppend(o, cloud, a[1..], b);
      var one := CatOne(o, cloud, FilterPath(a[0]));
      if one.Ok? {
        var rest := CatPaths(o, cloud, a[1..]);
        var second := CatPaths(o, cloud, b);
        assert one.value + (rest.0 + second.0) == (one.value + rest.0) + second.0;
      }
    }
  }

  // ---------------------------------------------------------------------
  // buckets
  // ---------------------------------------------------------------------

  /** The bucket filter as a regular expression: every star becomes ".*" and
      the whole name must match. */
  function BucketPattern(filter: string): string {
    "^" + ReplaceStar(filter, -1) + "$"
  }

  /** The filter is anchored at both ends, grows by one character per star,
      and a filter without stars is matched literally. */
  lemma BucketPatternShape(filter: string)
    ensures var p := BucketPattern(filter);
            |p| == |filter| + Count(filter, '*') + 2 && p[0] == '^' && p[|p| - 1] == '$'
    ensures '*' !in filter ==> BucketPattern(filter) == "^" + filter + "$"
  {
    ReplaceAllStarsLength(filter);
    if '*' !in filter {
      ReplaceStarIdentity(filter, -1);
    }
  }

  /** The buckets whose name the pattern matches, in listing order. */
  function MatchingBuckets(re: Regexp, pattern: string, buckets: seq<BucketInfo>): (r: seq<BucketInfo>)
    ensures forall b :: b in r <==> b in buckets && re.matches(pattern, b.name)
    decreases |buckets|
  {
    if buckets == [] then []
    else
      assert forall b :: b in buckets <==> b == buckets[0] || b in buckets[1..];
      (if re.matches(pattern, buckets[0].name) then [buckets[0]] else []) + MatchingBuckets(re, pattern, buckets[1..])
  }

  /** runListBucketsCommand: the buckets are listed before the filter is
      compiled, so a failed listing is reported even for an invalid filter;
      each matching bucket is printed with its creation date. */
  method RunListBuckets(cloud: Cloud, re: Regexp, filter: string) returns (shown: seq<BucketInfo>, err: Option<Failure>)
    ensures cloud.buckets.None? ==> shown == [] && err == Some(BucketsFailed)
    ensures cloud.buckets.Some? && !re.compiles(BucketPattern(filter)) ==> shown == [] && err == Some(InvalidFilter)
    ensures cloud.buckets.Some? && re.compiles(BucketPattern(filter)) ==>
              err == None && shown == MatchingBuckets(re, BucketPattern(filter), cloud.buckets.value)
  {
    var pattern := BucketPattern(filter);
    if cloud.buckets.None? {
      return [], Some(BucketsFailed);
    }
    var buckets := cloud.buckets.value;
    if !re.compiles(pattern) {
      return [], Some(InvalidFilter);
    }
    shown := [];
    var i := 0;
    while i < |buckets|
      invariant 0 <= i <= |buckets|
      invariant MatchingBuckets(re, pattern, buckets) == shown + MatchingBuckets(re, pattern, buckets[i..])
    {
      assert buckets[i..][0] == buckets[i] && buckets[i..][1..] == buckets[i + 1..];
      if re.matches(pattern, buckets[i].name) {
        shown := shown + [buckets[i]];
      }
      i := i + 1;
    }
    assert buckets[i..] == [];
    assert shown + [] == shown;
    return shown, None;
  }

  // ---------------------------------------------------------------------
  // ls
  // ---------------------------------------------------------------------

  datatype ListOptions = ListOptions(bucket: string, recursive: bool)

  /** What ls prints for one path: a "total" line with the number of
      entries, then one line per entry. */
  datatype Listing = Listing(path: string, entries: seq<Entry>)

  /** ls lists the bucket root when no path is given. */
  function ListArgs(args: seq<string>): (paths: seq<string>)
    ensures |paths| >= 1
    ensures args != [] ==> paths == args
  {
    if |args| == 0 then [""] else args
  }

  /** ls's loop: one listing per path, stopping at the first failed one. */
  function ListPaths(o: ListOptions, cloud: Cloud, re: Regexp, paths: seq<string>): (r: (seq<Listing>, Option<Failure>))
    decreases |paths|
  {
    if paths == [] then ([], None)
    else
      var path := FilterPath(paths[0]);
      match ListObjectsSpec(cloud, re, o.bucket, path, o.recursive)
      case None => ([], Some(ListFailed(path)))
      case Some(files) =>
        After([Listing(path, files)], ListPaths(o, cloud, re, paths[1..]))
  }

  /** Each listing is for the normalised path at the same position and
      holds well-formed entries only. */
  predicate ListingsFor(listings: seq<Listing>, paths: seq<string>) {
    && |listings| <= |paths|
    && forall k :: 0 <= k < |listings| ==>
         && listings[k].path == FilterPath(paths[k])
         && forall j :: 0 <= j < |listings[k].entries| ==> WellFormed(listings[k].entries[j])
  }

  lemma ListingsForCons(l: Listing, rest: seq<Listing>, paths: seq<string>)
    requires paths != [] && l.path == FilterPath(paths[0])
    requires forall j :: 0 <= j < |l.entries| ==> WellFormed(l.entries[j])
    requires ListingsFor(rest, paths[1..])
    ensures ListingsFor([l] + rest, paths)
  {
    var all := [l] + rest;
    forall k | 1 <= k < |all| ensures all[k] == rest[k - 1] && paths[k] == paths[1..][k - 1] {
    }
  }

  /** ls prints one listing per path, in argument order, for the normalised
      path, and stops at the first failed listing; every listed entry is a
      directory exactly when its path ends in `/`. */
  lemma {:induction false} ListPathsShape(o: ListOptions, cloud: Cloud, re: Regexp, paths: seq<string>)
    ensures var r := ListPaths(o, cloud, re, paths);
            ListingsFor(r.0, paths) && (r.1.None? ==> |r.0| == |paths|)
    decreases |paths|
  {
    if paths != [] {
      ListPathsShape(o, cloud, re, paths[1..]);
      var path := FilterPath(paths[0]);
      var listing := ListObjectsSpec(cloud, re, o.bucket, path, o.recursive);
      if listing.Some? {
        CollectShape(re, Pattern(path, o.recursive), cloud.objects(o.bucket, ListingPrefix(path)).value, {});
        ListingsForCons(Listing(path, listing.value), ListPaths(o, cloud, re, paths[1..]).0, paths);
      }
    }
  }

  /** runListSecretsCommand */
  function RunList(o: ListOptions, cloud: Cloud, re: Regexp, args: seq<string>): (seq<Listing>, Option<Failure>) {
    if o.bucket == "" then ([], Some(NoBucket))
    else ListPaths(o, cloud, re, ListArgs(args))
  }

  /** One step of ls's loop, from position `i` of the paths. */
  lemma ListPathsStep(o: ListOptions, cloud: Cloud, re: Regexp, paths: seq<string>, i: nat)
    requires i < |paths|
    ensures var path := FilterPath(paths[i]);
            ListPaths(o, cloud, re, paths[i..])
              == match ListObjectsSpec(cloud, re, o.bucket, path, o.recursive)
                 case None => ([], Some(ListFailed(path)))
                 case Some(files) => After([Listing(path, files)], ListPaths(o, cloud, re, paths[i + 1..]))
  {
    assert paths[i..][0] == paths[i] && paths[i..][1..] == paths[i + 1..];
  }

  /** runListSecretsCommand, as the source runs it. */
  method RunListSecrets(o: ListOptions, cloud: Cloud, re: Regexp, args: seq<string>)
    returns (listings: seq<Listing>, err: Option<Failure>)
    ensures (listings, err) == RunList(o, cloud, re, args)
  {
    if o.bucket == "" {
      return [], Some(NoBucket);
    }
    var paths := args;
    if |paths| == 0 {
      paths := paths + [""];
    }
    assert paths == ListArgs(args);
    listings, err := ListEach(o, cloud, re, paths);
  }

  /** ls's loop, as the source runs it. */
  method ListEach(o: ListOptions, cloud: Cloud, re: Regexp, paths: seq<string>)
    returns (listings: seq<Listing>, err: Option<Failure>)
    ensures (listings, err) == ListPaths(o, cloud, re, paths)
  {
    listings := [];
    var i := 0;
    assert paths[i..] == paths;
    while i < |paths|
      invariant 0 <= i <= |paths|
      invariant ListPaths(o, cloud, re, paths) == After(listings, ListPaths(o, cloud, re, paths[i..]))
    {
      ListPathsStep(o, cloud, re, paths, i);
      var path := FilterPath(paths[i]);
      var files := ListObjects(cloud, re, o.bucket, path, o.recursive);
      if files.None? {
        assert listings + [] == listings;
        return listings, Some(ListFailed(path));
      }
      AfterThen(listings, [Listing(path, files.value)], ListPaths(o, cloud, re, paths[i + 1..]));
      listings := listings + [Listing(path, files.value)];
      i := i + 1;
    }
    assert listings + [] == listings;
    return listings, None;
  }

  /** Without arguments ls lists the whole bucket once. */
  lemma ListWithoutArguments(o: ListOptions, cloud: Cloud, re: Regexp)
    requires o.bucket != ""
    ensures var r := RunList(o, cloud, re, []);
            r.1.None? ==> |r.0| == 1 && r.0[0].path == ""
  {
    ListPathsShape(o, cloud, re, [""]);
  }

  // ---------------------------------------------------------------------
  // rm
  // ---------------------------------------------------------------------

  /** rm's loop: one delete request per normalised path, stopping at the
      first rejected one. */
  function RemovePaths(bucket: string, cloud: Cloud, paths: seq<string>): (r: (seq<Request>, Option<Failure>))
    ensures |r.0| <= |paths|
    ensures forall k :: 0 <= k < |r.0| ==> r.0[k] == DeleteObject(bucket, FilterPath(paths[k]))
    ensures r.1.None? <==> |r.0| == |paths| && forall k :: 0 <= k < |r.0| ==> cloud.accepts(r.0[k])
    decreases |paths|
  {
    if paths == [] then ([], None)
    else
      var req := DeleteObject(bucket, FilterPath(paths[0]));
      if !cloud.accepts(req) then ([req], Some(RemoveFailed(FilterPath(paths[0]))))
      else
        var rest := RemovePaths(bucket, cloud, paths[1..]);
        assert forall k :: 1 <= k < |paths| ==> paths[k] == paths[1..][k - 1];
        assert forall k :: 1 <= k < |[req] + rest.0| ==> ([req] + rest.0)[k] == rest.0[k - 1];
        After([req], rest)
  }

  /** runRemoveSecretsCommand: needs a bucket; no path is not an error. */
  function RunRemove(bucket: string, cloud: Cloud, paths: seq<string>): (seq<Request>, Option<Failure>) {
    if bucket == "" then ([], Some(NoBucket)) else RemovePaths(bucket, cloud, paths)
  }

  /** runRemoveSecretsCommand, as the source runs it. */
  method RunRemoveSecrets(bucket: string, cloud: Cloud, paths: seq<string>) returns (sent: seq<Request>, err: Option<Failure>)
    ensures (sent, err) == RunRemove(bucket, cloud, paths)
  {
    if bucket == "" {
      return [], Some(NoBucket);
    }
    sent := [];
    var i := 0;
    assert paths[i..] == paths;
    while i < |paths|
      invariant 0 <= i <= |paths|
      invariant RemovePaths(bucket, cloud, paths) == After(sent, RemovePaths(bucket, cloud, paths[i..]))
    {
      assert paths[i..][0] == paths[i] && paths[i..][1..] == paths[i + 1..];
      var path := FilterPath(paths[i]);
      var req := DeleteObject(bucket, path);
      if !cloud.accepts(req) {
        return sent + [req], Some(RemoveFailed(path));
      }
      var rest := RemovePaths(bucket, cloud, paths[i + 1..]);
      assert sent + ([req] + rest.0) == (sent + [req]) + rest.0;
      sent := sent + [req];
      i := i + 1;
    }
    assert sent + [] == sent;
    return sent, None;
  }
}
