/** The filesystem helpers of the first generation of the tool
    (src/github.com/UKHomeOffice/s3secrets/utils.go). */
module LegacyUtils {
  import opened Outcomes
  import opened Environment

  /** isDirectory: opens the path and stats the open file. The answer is a
      pair (is a directory, failed); a failure answers false. */
  function IsDirectory(host: Host, path: string): (r: (bool, bool))
    ensures r.1 ==> !r.0
    ensures !r.1 <==> host.probe(path).Exists? && host.probe(path).openable
    ensures !r.1 ==> (r.0 <==> host.probe(path).kind == Directory)
  {
    match host.probe(path)
    case Exists(kind, openable) => if openable then (kind == Directory, false) else (false, true)
    case _ => (false, true)
  }

  /** fileExists: only a "does not exist" answer of stat counts as absent;
      any other stat error counts as present. */
  predicate FileExists(host: Host, path: string) {
    !host.probe(path).NotExist?
  }

  /** How the two checks relate: an absent path fails isDirectory; a path
      isDirectory answers for exists; and a path whose stat fails for another
      reason passes fileExists yet fails isDirectory. */
  lemma ExistenceAndDirectory(host: Host, path: string)
    ensures !FileExists(host, path) ==> IsDirectory(host, path) == (false, true)
    ensures !IsDirectory(host, path).1 ==> FileExists(host, path)
    ensures host.probe(path).StatFailed? ==> FileExists(host, path) && IsDirectory(host, path).1
  {
  }

  /** The paths filepath.Walk visits that are not directories, in walk order:
      the root directory and every directory below it are left out. */
  function NonDirectories(entries: seq<WalkEntry>): (paths: seq<string>)
    ensures |paths| <= |entries|
    ensures forall p :: p in paths <==> exists e :: e in entries && e.kind != Directory && e.path == p
    decreases |entries|
  {
    if entries == [] then []
    else
      var rest := NonDirectories(entries[1..]);
      assert forall e :: e in entries <==> e == entries[0] || e in entries[1..];
      if entries[0].kind != Directory then [entries[0].path] + rest else rest
  }

  /** Listing a walk in two parts gives the two listings one after the other. */
  lemma {:induction false} NonDirectoriesAppend(a: seq<WalkEntry>, b: seq<WalkEntry>)
    ensures NonDirectories(a + b) == NonDirectories(a) + NonDirectories(b)
    decreases |a|
  {
    if a == [] {
      assert a + b == b;
    } else {
      assert (a + b)[0] == a[0] && (a + b)[1..] == a[1..] + b;
      NonDirectoriesAppend(a[1..], b);
    }
  }

  /** One more walked entry: the listing of the longer prefix is that of
      the shorter one, plus the entry if it is not a directory. */
  lemma NonDirectoriesSnoc(entries: seq<WalkEntry>, i: nat)
    requires i < |entries|
    ensures NonDirectories(entries[..i + 1])
              == NonDirectories(entries[..i]) + (if entries[i].kind != Directory then [entries[i].path] else [])
  {
    assert entries[..i + 1] == entries[..i] + [entries[i]];
    NonDirectoriesAppend(entries[..i], [entries[i]]);
    assert [entries[i]][1..] == [];
  }

  /** directoryList: every path below `path` (and `path` itself) that walk
      does not report as a directory. */
  method DirectoryList(host: Host, path: string) returns (list: seq<string>)
    ensures list == NonDirectories(host.walk(path))
  {
    var entries := host.walk(path);
    list := [];
    var i := 0;
    while i < |entries|
      invariant 0 <= i <= |entries|
      invariant list == NonDirectories(entries[..i])
    {
      NonDirectoriesSnoc(entries, i);
      if entries[i].kind != Directory {
        list := list + [entries[i].path];
      }
      i := i + 1;
    }
    assert entries[..i] == entries;
  }

  /** writeFile: a dry run appends the content to standard output; otherwise
      the file is created or truncated and holds exactly the content. The
      answer is (new disk, failed). */
  function WriteFile(disk: Disk, host: Host, path: string, content: Bytes, dryRun: bool): (r: (Disk, bool))
    ensures r.1 <==> !dryRun && host.openFails(path)
    ensures r.1 ==> r.0 == disk
    ensures dryRun ==> r.0.files == disk.files && r.0.stdout == disk.stdout + content
    ensures !dryRun && !r.1 ==>
              && path in r.0.files && r.0.files[path] == content
              && r.0.files - {path} == disk.files - {path}
              && r.0.stdout == disk.stdout
    ensures r.0.dirs == disk.dirs
  {
    if dryRun then (disk.(stdout := disk.stdout + content), false)
    else if host.openFails(path) then (disk, true)
    else (disk.(files := disk.files[path := content]), false)
  }
}
