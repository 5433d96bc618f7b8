/** The KMS commands of the first generation of the tool
    (src/github.com/UKHomeOffice/s3secrets/run_kms.go): encrypting and
    decrypting local files in place, and listing the key aliases. */
module RunKms {
  import opened Outcomes
  import opened Environment
  import opened GoStrings
  import opened LegacyUtils
  import opened LegacyKms

  /** Why a command stops; each case is one of the messages it returns. */
  datatype Failure =
    | NoKmsId                 // encrypting without a KMS key id
    | NoFiles                 // no files given
    | NotOpenable(path: string)  // isDirectory failed on an argument
    | CodingFailed(file: string) // reading, encrypting or decrypting the file failed
    | SaveFailed(name: string)   // the output file could not be opened
    | DeleteFailed(file: string) // the original file could not be removed
    | AliasesFailed           // listing the aliases failed

  datatype KmsOptions = KmsOptions(command: string, suffix: string, kmsId: string, noDelete: bool, dryRun: bool)

  /** Every command but "decrypt" encrypts. */
  predicate Encrypting(o: KmsOptions) {
    o.command != "decrypt"
  }

  /** Encrypting leaves alone the files that already carry the suffix;
      decrypting leaves alone the files that do not. */
  predicate Skipped(o: KmsOptions, file: string) {
    if Encrypting(o) then HasSuffix(file, o.suffix) else !HasSuffix(file, o.suffix)
  }

  /** The name the result is saved under: the file with the suffix added
      when encrypting, with the suffix removed when decrypting. */
  function OutputName(o: KmsOptions, file: string): string {
    if Encrypting(o) then file + o.suffix else TrimSuffix(file, o.suffix)
  }

  /** Decrypting what encrypting produced is not skipped and is saved under
      the name the file had before it was encrypted. */
  lemma EncryptedNameDecrypts(o: KmsOptions, file: string)
    requires Encrypting(o)
    ensures var enc := OutputName(o, file);
            var dec := o.(command := "decrypt");
            !Skipped(dec, enc) && OutputName(dec, enc) == file
  {
    TrimSuffixOfAppended(file, o.suffix);
  }

  /** Encrypting what decrypting produced is saved under the name the
      decrypted file had. */
  lemma DecryptedNameEncrypts(o: KmsOptions, file: string)
    requires !Encrypting(o) && !Skipped(o, file)
    ensures OutputName(o.(command := "encrypt"), OutputName(o, file)) == file
  {
  }

  /** An empty suffix is carried by every file: encrypting then skips every
      file, and decrypting saves each file under its own name. */
  lemma EmptySuffix(o: KmsOptions, file: string)
    requires o.suffix == ""
    ensures Encrypting(o) ==> Skipped(o, file)
    ensures !Encrypting(o) ==> !Skipped(o, file) && OutputName(o, file) == file
  {
    assert file + "" == file;
  }

  /** The new content of a file: its encryption under the key id, or its
      decryption. */
  function Coded(o: KmsOptions, cloud: Cloud, host: Host, file: string): Option<Bytes> {
    if Encrypting(o) then EncryptFile(cloud, host, o.kmsId, file) else DecryptFile(cloud, host, file)
  }

  /** One file of runKMSCommand's inner loop: skipped, or coded, saved under
      its output name and then (unless told not to, or on a dry run) removed. */
  function ProcessFile(o: KmsOptions, cloud: Cloud, host: Host, disk: Disk, file: string): (r: (Disk, Option<Failure>))
    ensures Skipped(o, file) ==> r == (disk, None)
    ensures r.1.Some? && !r.1.value.DeleteFailed? ==> r.0 == disk
    ensures r.1.Some? ==> !Skipped(o, file)
    ensures r.1.None? && !Skipped(o, file) ==> Coded(o, cloud, host, file).Some?
    // the output is saved, holding the coded content
    ensures && !Skipped(o, file) && !o.dryRun
            && (r.1 == Some(DeleteFailed(file)) || (r.1.None? && (o.noDelete || OutputName(o, file) != file))) ==>
              && Coded(o, cloud, host, file).Some?
              && OutputName(o, file) in r.0.files
              && r.0.files[OutputName(o, file)] == Coded(o, cloud, host, file).value
    // the original goes only after a successful save, and only when allowed
    ensures file in disk.files && file !in r.0.files ==>
              r.1.None? && !Skipped(o, file) && !o.noDelete && !o.dryRun
    ensures r.1.None? && !Skipped(o, file) && !o.noDelete && !o.dryRun ==> file !in r.0.files
    ensures r.1.Some? && r.1.value.DeleteFailed? ==> r.1.value.file == file && !o.noDelete && !o.dryRun && host.removeFails(file)
    // no other file is touched, and a dry run touches none
    ensures r.0.files - {file, OutputName(o, file)} == disk.files - {file, OutputName(o, file)}
    ensures o.dryRun ==> r.0.files == disk.files
    ensures !o.dryRun ==> r.0.stdout == disk.stdout
    ensures r.0.dirs == disk.dirs
  {
    if Skipped(o, file) then (disk, None)
    else match Coded(o, cloud, host, file)
      case None => (disk, Some(CodingFailed(file)))
      case Some(data) =>
        var name := OutputName(o, file);
        var (d, failed) := WriteFile(disk, host, name, data, o.dryRun);
        if failed then (disk, Some(SaveFailed(name)))
        else if o.noDelete || o.dryRun then (d, None)
        else if host.removeFails(file) then (d, Some(DeleteFailed(file)))
        else (d.(files := d.files - {file}), None)
  }

  /** runKMSCommand's inner loop: the files in order, stopping at the first
      failure. */
  function ProcessFiles(o: KmsOptions, cloud: Cloud, host: Host, disk: Disk, files: seq<string>): (r: (Disk, Option<Failure>))
    decreases |files|
  {
    if files == [] then (disk, None)
    else
      var first := ProcessFile(o, cloud, host, disk, files[0]);
      if first.1.Some? then first else ProcessFiles(o, cloud, host, first.0, files[1..])
  }

  /** The files an argument stands for: the argument itself, or, for a
      directory, every path below it that is not a directory. */
  function FileList(host: Host, path: string): (r: Result<seq<string>, Failure>)
    ensures r.Err? <==> IsDirectory(host, path).1
    ensures r.Err? ==> r.error == NotOpenable(path)
    ensures r.Ok? && !IsDirectory(host, path).0 ==> r.value == [path]
    ensures r.Ok? && IsDirectory(host, path).0 ==> r.value == NonDirectories(host.walk(path))
  {
    var (dir, failed) := IsDirectory(host, path);
    if failed then Err(NotOpenable(path))
    else if dir then Ok(NonDirectories(host.walk(path)))
    else Ok([path])
  }

  /** runKMSCommand's outer loop: each argument's files in turn, stopping at
      the first failure. */
  function ProcessPaths(o: KmsOptions, cloud: Cloud, host: Host, disk: Disk, paths: seq<string>): (r: (Disk, Option<Failure>))
    decreases |paths|
  {
    if paths == [] then (disk, None)
    else match FileList(host, paths[0])
      case Err(e) => (disk, Some(e))
      case Ok(files) =>
        var first := ProcessFiles(o, cloud, host, disk, files);
        if first.1.Some? then first else ProcessPaths(o, cloud, host, first.0, paths[1..])
  }

  /** runKMSCommand: encrypting needs a key id, and some file is needed;
      both are checked before any file is touched. */
  function RunKmsSpec(o: KmsOptions, cloud: Cloud, host: Host, disk: Disk, paths: seq<string>): (r: (Disk, Option<Failure>))
    ensures Encrypting(o) && o.kmsId == "" ==> r == (disk, Some(NoKmsId))
    ensures !(Encrypting(o) && o.kmsId == "") && paths == [] ==> r == (disk, Some(NoFiles))
  {
    if Encrypting(o) && o.kmsId == "" then (disk, Some(NoKmsId))
    else if |paths| == 0 then (disk, Some(NoFiles))
    else ProcessPaths(o, cloud, host, disk, paths)
  }

  /** The inner loop, as the source runs it. */
  method ProcessFileList(o: KmsOptions, cloud: Cloud, host: Host, disk: Disk, files: seq<string>)
    returns (d: Disk, err: Option<Failure>)
    ensures (d, err) == ProcessFiles(o, cloud, host, disk, files)
  {
    d := disk;
    var i := 0;
    assert files[i..] == files;
    while i < |files|
      invariant 0 <= i <= |files|
      invariant ProcessFiles(o, cloud, host, disk, files) == ProcessFiles(o, cloud, host, d, files[i..])
    {
      assert files[i..][0] == files[i] && files[i..][1..] == files[i + 1..];
      var file := files[i];
      if Skipped(o, file) {
        i := i + 1;
        continue;
      }
      var data := Coded(o, cloud, host, file);
      if data.None? {
        return d, Some(CodingFailed(file));
      }
      var name := OutputName(o, file);
      var (d', failed) := WriteFile(d, host, name, data.value, o.dryRun);
      if failed {
        return d, Some(SaveFailed(name));
      }
      if !o.noDelete && !o.dryRun {
        if host.removeFails(file) {
          return d', Some(DeleteFailed(file));
        }
        d' := d'.(files := d'.files - {file});
      }
      d := d';
      i := i + 1;
    }
    return d, None;
  }

  /** runKMSCommand, as the source runs it. */
  method RunKMSCommand(o: KmsOptions, cloud: Cloud, host: Host, disk: Disk, paths: seq<string>)
    returns (d: Disk, err: Option<Failure>)
    ensures (d, err) == RunKmsSpec(o, cloud, host, disk, paths)
  {
    if Encrypting(o) && o.kmsId == "" {
      return disk, Some(NoKmsId);
    }
    if |paths| == 0 {
      return disk, Some(NoFiles);
    }
    d := disk;
    var i := 0;
    assert paths[i..] == paths;
    while i < |paths|
      invariant 0 <= i <= |paths|
      invariant RunKmsSpec(o, cloud, host, disk, paths) == ProcessPaths(o, cloud, host, d, paths[i..])
    {
      assert paths[i..][0] == paths[i] && paths[i..][1..] == paths[i + 1..];
      var path := paths[i];
      var fileList := [path];
      var (dir, failed) := IsDirectory(host, path);
      if failed {
        return d, Some(NotOpenable(path));
      }
      if dir {
        fileList := DirectoryList(host, path);
      }
      var d', e := ProcessFileList(o, cloud, host, d, fileList);
      if e.Some? {
        return d', e;
      }
      d := d';
      i := i + 1;
    }
    return d, None;
  }

  /** The command stops at the first file that fails: later files are not
      touched, and what was done before stays done. */
  lemma {:induction false} ProcessFilesAppend(o: KmsOptions, cloud: Cloud, host: Host, disk: Disk, a: seq<string>, b: seq<string>)
    ensures var first := ProcessFiles(o, cloud, host, disk, a);
            ProcessFiles(o, cloud, host, disk, a + b)
              == if first.1.Some? then first else ProcessFiles(o, cloud, host, first.0, b)
    decreases |a|
  {
    if a == [] {
      assert a + b == b;
    } else {
      assert (a + b)[0] == a[0] && (a + b)[1..] == a[1..] + b;
      var step := ProcessFile(o, cloud, host, disk, a[0]);
      if step.1.None? {
        ProcessFilesAppend(o, cloud, host, step.0, a[1..], b);
      }
    }
  }

  /** A dry run neither writes nor removes any file. */
  lemma {:induction false} DryRunKeepsFiles(o: KmsOptions, cloud: Cloud, host: Host, disk: Disk, files: seq<string>)
    requires o.dryRun
    ensures ProcessFiles(o, cloud, host, disk, files).0.files == disk.files
    decreases |files|
  {
    if files != [] {
      var step := ProcessFile(o, cloud, host, disk, files[0]);
      if step.1.None? {
        DryRunKeepsFiles(o, cloud, host, step.0, files[1..]);
      }
    }
  }

  /** A file the command removes was one of its files and was not skipped;
      and with no-delete set no file is ever removed. */
  lemma {:induction false} RemovesOnlyProcessed(o: KmsOptions, cloud: Cloud, host: Host, disk: Disk, files: seq<string>, f: string)
    requires f in disk.files && f !in ProcessFiles(o, cloud, host, disk, files).0.files
    ensures f in files && !Skipped(o, f) && !o.noDelete && !o.dryRun
    decreases |files|
  {
    if files != [] {
      var step := ProcessFile(o, cloud, host, disk, files[0]);
      if f in step.0.files {
        RemovesOnlyProcessed(o, cloud, host, step.0, files[1..], f);
      } else {
        assert f == files[0];
      }
    }
  }

  /** A directory argument stands for the files below it, and not for
      itself when the walk reports it as a directory. */
  lemma DirectoryArgument(host: Host, dir: string)
    requires IsDirectory(host, dir) == (true, false)
    requires WalkEntry(dir, Directory) in host.walk(dir)
    requires forall e :: e in host.walk(dir) && e.path == dir ==> e.kind == Directory
    ensures FileList(host, dir).Ok? && dir !in FileList(host, dir).value
  {
  }

  // ---------------------------------------------------------------------
  // aliases
  // ---------------------------------------------------------------------

  /** The (name, target key id) pairs shown for a list of aliases, in list
      order: an alias without a target key is not shown. */
  function TargetedAliases(aliases: seq<Alias>): (shown: seq<(string, string)>)
    ensures |shown| <= |aliases|
    ensures forall p :: p in shown <==> Alias(p.0, Some(p.1)) in aliases
    decreases |aliases|
  {
    if aliases == [] then []
    else
      var rest := TargetedAliases(aliases[1..]);
      assert forall a :: a in aliases <==> a == aliases[0] || a in aliases[1..];
      match aliases[0].target
      case None => rest
      case Some(t) => [(aliases[0].name, t)] + rest
  }

  /** runListKMSKeysAliases: a failed listing is an error and shows nothing. */
  method ListKeyAliases(cloud: Cloud) returns (shown: seq<(string, string)>, err: Option<Failure>)
    ensures cloud.aliases.None? ==> shown == [] && err == Some(AliasesFailed)
    ensures cloud.aliases.Some? ==> err == None && shown == TargetedAliases(cloud.aliases.value)
  {
    if cloud.aliases.None? {
      return [], Some(AliasesFailed);
    }
    var keys := cloud.aliases.value;
    shown := [];
    var i := 0;
    assert keys[i..] == keys;
    while i < |keys|
      invariant 0 <= i <= |keys|
      invariant TargetedAliases(keys) == shown + TargetedAliases(keys[i..])
    {
      assert keys[i..][0] == keys[i] && keys[i..][1..] == keys[i + 1..];
      if keys[i].target.Some? {
        shown := shown + [(keys[i].name, keys[i].target.value)];
      }
      i := i + 1;
    }
    assert keys[i..] == [];
    return shown, None;
  }
}
