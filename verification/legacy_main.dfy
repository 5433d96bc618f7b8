/** The original one-shot program of the first generation of the tool
    (src/github.com/UKHomeOffice/s3secrets/main.go): every listed file of
    every path is fetched, decrypted and saved into the output directory; a
    file that fails is reported and skipped. */
module LegacyMain {
  import opened Outcomes
  import opened Environment
  import opened GoStrings
  import opened LegacyUtils

  /** The options main reads: the bucket, the output directory, the suffix
      encrypted files carry and whether to print instead of saving. */
  datatype MainOptions = MainOptions(bucket: string, outputDir: string, fileSuffix: string, dryRun: bool)

  /** The listing and fetching main calls: listObjects(bucket, path) gives
      the names of the files under a path, getBlob(bucket, name) the content
      of one. Their answers are fixed for one run; None is an error. */
  datatype Store = Store(list: (string, string) -> Option<seq<string>>, fetch: (string, string) -> Option<Bytes>)

  /** What main reports about one listed file. */
  datatype Report =
    | Saved(file: string)
    | NotFetched(file: string)
    | NotDecrypted(file: string)
    | NotWritten(file: string)

  /** dirExists: only a "does not exist" answer of stat counts as absent. */
  predicate DirExists(host: Host, f: string) {
    !host.probe(f).NotExist?
  }

  /** dirExists and the utilities' fileExists give the same answer on
      every path, including a path whose stat fails for another reason. */
  lemma DirExistsIsFileExists(host: Host, f: string)
    ensures DirExists(host, f) <==> FileExists(host, f)
    ensures host.probe(f).StatFailed? ==> DirExists(host, f)
  {
  }

  /** Where main saves a file: its base name, without the suffix, inside the
      output directory. */
  function Target(o: MainOptions, filename: string): string {
    o.outputDir + "/" + TrimSuffix(Base(filename), o.fileSuffix)
  }

  /** A file name that does not end in `/` is saved directly inside the
      output directory, whatever directories the name contains; with the
      suffix put back, the saved name is the base name of the file. */
  lemma TargetInOutputDir(o: MainOptions, filename: string)
    requires filename != "" && filename[|filename| - 1] != '/'
    ensures Target(o, filename)[..|o.outputDir| + 1] == o.outputDir + "/"
    ensures '/' !in Target(o, filename)[|o.outputDir| + 1..]
    ensures HasSuffix(Base(filename), o.fileSuffix) ==>
              Target(o, filename) + o.fileSuffix == o.outputDir + "/" + Base(filename)
  {
    BaseOfFileName(filename);
    var b := Base(filename);
    var n := TrimSuffix(b, o.fileSuffix);
    assert n == b[..|n|];
    assert '/' !in n by {
      forall i | 0 <= i < |n| ensures n[i] != '/' {
        assert n[i] == b[i];
      }
    }
    assert Target(o, filename) == (o.outputDir + "/") + n;
  }

  /** The content main saves for a file: the decryption of what was
      fetched; every listed file is decrypted, whatever its suffix. */
  function Secret(o: MainOptions, store: Store, cloud: Cloud, filename: string): Option<Bytes> {
    match store.fetch(o.bucket, filename)
    case None => None
    case Some(blob) => cloud.decrypt(blob)
  }

  /** One file of main's inner loop: fetched, decrypted and saved; a
      failure at any step is reported and leaves everything as it was. */
  function MainFile(o: MainOptions, store: Store, cloud: Cloud, host: Host, disk: Disk, filename: string): (r: (Disk, Report))
    ensures r.1.file == filename
    ensures !r.1.Saved? ==> r.0 == disk
    ensures r.1.NotFetched? <==> store.fetch(o.bucket, filename).None?
    ensures r.1.Saved? <==> Secret(o, store, cloud, filename).Some? && !(!o.dryRun && host.openFails(Target(o, filename)))
    ensures r.1.Saved? && !o.dryRun ==>
              r.0.files == disk.files[Target(o, filename) := Secret(o, store, cloud, filename).value]
    ensures r.1.Saved? && o.dryRun ==> r.0.stdout == disk.stdout + Secret(o, store, cloud, filename).value
    ensures o.dryRun ==> r.0.files == disk.files
    ensures r.0.dirs == disk.dirs
  {
    match store.fetch(o.bucket, filename)
    case None => (disk, NotFetched(filename))
    case Some(blob) =>
      match cloud.decrypt(blob)
      case None => (disk, NotDecrypted(filename))
      case Some(data) =>
        var (d, failed) := WriteFile(disk, host, Target(o, filename), data, o.dryRun);
        if failed then (disk, NotWritten(filename)) else (d, Saved(filename))
  }

  /** main's inner loop: every listed file is attempted, in listing order,
      and reported once. */
  function MainFiles(o: MainOptions, store: Store, cloud: Cloud, host: Host, disk: Disk, files: seq<string>): (r: (Disk, seq<Report>))
    ensures |r.1| == |files|
    decreases |files|
  {
    if files == [] then (disk, [])
    else
      var first := MainFile(o, store, cloud, host, disk, files[0]);
      var rest := MainFiles(o, store, cloud, host, first.0, files[1..]);
      (rest.0, [first.1] + rest.1)
  }

  /** main's outer loop: a failed listing of a path is fatal and ends the
      program (the third component names that path); otherwise every path's
      files are processed in turn. */
  function MainPaths(o: MainOptions, store: Store, cloud: Cloud, host: Host, disk: Disk, paths: seq<string>): (r: (Disk, seq<Report>, Option<string>))
    ensures r.2.Some? ==> r.2.value in paths && store.list(o.bucket, r.2.value).None?
    ensures r.2.None? ==> forall p :: p in paths ==> store.list(o.bucket, p).Some?
    decreases |paths|
  {
    if paths == [] then (disk, [], None)
    else match store.list(o.bucket, paths[0])
      case None => (disk, [], Some(paths[0]))
      case Some(files) =>
        var first := MainFiles(o, store, cloud, host, disk, files);
        var rest := MainPaths(o, store, cloud, host, first.0, paths[1..]);
        (rest.0, first.1 + rest.1, rest.2)
  }

  /** One step of main's inner loop, from position `i` of the listing. */
  lemma MainFilesStep(o: MainOptions, store: Store, cloud: Cloud, host: Host, disk: Disk, files: seq<string>, i: nat)
    requires i < |files|
    ensures var first := MainFile(o, store, cloud, host, disk, files[i]);
            var rest := MainFiles(o, store, cloud, host, first.0, files[i + 1..]);
            MainFiles(o, store, cloud, host, disk, files[i..]) == Preceded([first.1], rest)
  {
    assert files[i..][0] == files[i] && files[i..][1..] == files[i + 1..];
  }

  /** One file of main's inner loop, as the source runs it. */
  method ProcessFile(o: MainOptions, store: Store, cloud: Cloud, host: Host, disk: Disk, filename: string)
    returns (d: Disk, report: Report)
    ensures (d, report) == MainFile(o, store, cloud, host, disk, filename)
  {
    d := disk;
    var blob := store.fetch(o.bucket, filename);
    if blob.None? {
      return d, NotFetched(filename);
    }
    var data := cloud.decrypt(blob.value);
    if data.None? {
      return d, NotDecrypted(filename);
    }
    var (d', failed) := WriteFile(disk, host, Target(o, filename), data.value, o.dryRun);
    if failed {
      return d, NotWritten(filename);
    }
    return d', Saved(filename);
  }

  /** Reports already made, put before what the rest of a run does. */
  function Preceded(reports: seq<Report>, rest: (Disk, seq<Report>)): (Disk, seq<Report>) {
    (rest.0, reports + rest.1)
  }

  lemma PrecededThen(a: seq<Report>, b: seq<Report>, rest: (Disk, seq<Report>))
    ensures Preceded(a, Preceded(b, rest)) == Preceded(a + b, rest)
  {
    assert a + (b + rest.1) == (a + b) + rest.1;
  }

  /** main's inner loop, as the source runs it. */
  method ProcessListing(o: MainOptions, store: Store, cloud: Cloud, host: Host, disk: Disk, files: seq<string>)
    returns (d: Disk, reports: seq<Report>)
    ensures (d, reports) == MainFiles(o, store, cloud, host, disk, files)
  {
    d := disk;
    reports := [];
    var i := 0;
    assert files[i..] == files;
    assert [] + MainFiles(o, store, cloud, host, d, files).1 == MainFiles(o, store, cloud, host, d, files).1;
    while i < |files|
      invariant 0 <= i <= |files|
      invariant MainFiles(o, store, cloud, host, disk, files) == Preceded(reports, MainFiles(o, store, cloud, host, d, files[i..]))
    {
      MainFilesStep(o, store, cloud, host, d, files, i);
      var d', report := ProcessFile(o, store, cloud, host, d, files[i]);
      PrecededThen(reports, [report], MainFiles(o, store, cloud, host, d', files[i + 1..]));
      d := d';
      reports := reports + [report];
      i := i + 1;
    }
    assert files[i..] == [];
    assert reports + [] == reports;
  }

  /** One step of main's outer loop, from position `i` of the paths. */
  lemma MainPathsStep(o: MainOptions, store: Store, cloud: Cloud, host: Host, disk: Disk, paths: seq<string>, i: nat)
    requires i < |paths|
    ensures MainPaths(o, store, cloud, host, disk, paths[i..])
              == match store.list(o.bucket, paths[i])
                 case None => (disk, [], Some(paths[i]))
                 case Some(files) =>
                   var first := MainFiles(o, store, cloud, host, disk, files);
                   var rest := MainPaths(o, store, cloud, host, first.0, paths[i + 1..]);
                   (rest.0, first.1 + rest.1, rest.2)
  {
    assert paths[i..][0] == paths[i] && paths[i..][1..] == paths[i + 1..];
  }

  /** main, as the source runs it, from the moment the options are parsed. */
  method RunMain(o: MainOptions, store: Store, cloud: Cloud, host: Host, disk: Disk, paths: seq<string>)
    returns (d: Disk, reports: seq<Report>, fatal: Option<string>)
    ensures (d, reports, fatal) == MainPaths(o, store, cloud, host, disk, paths)
  {
    d := disk;
    reports := [];
    var i := 0;
    assert paths[i..] == paths;
    assert reports + MainPaths(o, store, cloud, host, d, paths).1 == MainPaths(o, store, cloud, host, d, paths).1;
    while i < |paths|
      invariant 0 <= i <= |paths|
      invariant var rest := MainPaths(o, store, cloud, host, d, paths[i..]);
                MainPaths(o, store, cloud, host, disk, paths) == (rest.0, reports + rest.1, rest.2)
    {
      MainPathsStep(o, store, cloud, host, d, paths, i);
      var list := store.list(o.bucket, paths[i]);
      if list.None? {
        assert reports + [] == reports;
        return d, reports, Some(paths[i]);
      }
      var d', found := ProcessListing(o, store, cloud, host, d, list.value);
      assert reports + (found + MainPaths(o, store, cloud, host, d', paths[i + 1..]).1)
          == (reports + found) + MainPaths(o, store, cloud, host, d', paths[i + 1..]).1;
      d := d';
      reports := reports + found;
      i := i + 1;
    }
    assert paths[i..] == [];
    assert reports + [] == reports;
    return d, reports, None;
  }

  /** What happens to one file does not depend on the files before it: its
      report is the one it would get on its own. */
  lemma {:induction false} ReportsIndependent(o: MainOptions, store: Store, cloud: Cloud, host: Host, disk: Disk, files: seq<string>, other: Disk, k: int)
    requires 0 <= k < |files|
    ensures MainFiles(o, store, cloud, host, disk, files).1[k] == MainFile(o, store, cloud, host, other, files[k]).1
    decreases |files|
  {
    var first := MainFile(o, store, cloud, host, disk, files[0]);
    if k > 0 {
      ReportsIndependent(o, store, cloud, host, first.0, files[1..], other, k - 1);
    }
  }

  /** Every listed file is attempted and reported, in listing order. */
  lemma {:induction false} EveryFileReported(o: MainOptions, store: Store, cloud: Cloud, host: Host, disk: Disk, files: seq<string>, k: int)
    requires 0 <= k < |files|
    ensures MainFiles(o, store, cloud, host, disk, files).1[k].file == files[k]
  {
    ReportsIndependent(o, store, cloud, host, disk, files, disk, k);
  }

  /** Running over a listing in two parts gives the two runs one after the
      other: a failure in the first part does not stop the second. */
  lemma {:induction false} MainFilesAppend(o: MainOptions, store: Store, cloud: Cloud, host: Host, disk: Disk, a: seq<string>, b: seq<string>)
    ensures var first := MainFiles(o, store, cloud, host, disk, a);
            var second := MainFiles(o, store, cloud, host, first.0, b);
            MainFiles(o, store, cloud, host, disk, a + b) == (second.0, first.1 + second.1)
    decreases |a|
  {
    if a == [] {
      assert a + b == b;
      assert [] + MainFiles(o, store, cloud, host, disk, b).1 == MainFiles(o, store, cloud, host, disk, b).1;
    } else {
      assert (a + b)[0] == a[0] && (a + b)[1..] == a[1..] + b;
      var step := MainFile(o, store, cloud, host, disk, a[0]);
      var tail := MainFiles(o, store, cloud, host, step.0, a[1..]);
      var second := MainFiles(o, store, cloud, host, tail.0, b);
      MainFilesAppend(o, store, cloud, host, step.0, a[1..], b);
      assert MainFiles(o, store, cloud, host, step.0, a[1..] + b) == (second.0, tail.1 + second.1);
      assert MainFiles(o, store, cloud, host, disk, a) == (tail.0, [step.1] + tail.1);
      assert [step.1] + (tail.1 + second.1) == ([step.1] + tail.1) + second.1;
    }
  }

  /** A dry run saves no file: the secrets only go to standard output. */
  lemma {:induction false} MainDryRunKeepsFiles(o: MainOptions, store: Store, cloud: Cloud, host: Host, disk: Disk, files: seq<string>)
    requires o.dryRun
    ensures MainFiles(o, store, cloud, host, disk, files).0.files == disk.files
    decreases |files|
  {
    if files != [] {
      var step := MainFile(o, store, cloud, host, disk, files[0]);
      MainDryRunKeepsFiles(o, store, cloud, host, step.0, files[1..]);
    }
  }
}
