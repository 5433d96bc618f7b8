/** The filesystem helpers of the command-line tool (utils.go): the path
    arguments and the expansion of a path into the regular files below it. */
module Utils {
  import opened Outcomes
  import opened Environment

  /** getPaths: the arguments, or the bucket root when there are none. */
  function GetPaths(args: seq<string>): (paths: seq<string>)
    ensures |paths| >= 1
    ensures args != [] ==> paths == args
    ensures args == [] ==> paths == [""]
  {
    if |args| == 0 then [""] else args
  }

  /** isDirectory: stat's answer, as (is a directory, failed); a failed
      stat answers false. */
  function IsDirectory(host: Host, path: string): (r: (bool, bool))
    ensures r.1 <==> !host.probe(path).Exists?
    ensures r.0 <==> host.probe(path).Exists? && host.probe(path).kind == Directory
  {
    match host.probe(path)
    case Exists(kind, _) => (kind == Directory, false)
    case _ => (false, true)
  }

  /** isFile: the negation of isDirectory, with its failure passed through,
      so a path stat cannot see counts as a file. */
  function IsFile(host: Host, path: string): (r: (bool, bool))
    ensures r.1 == IsDirectory(host, path).1
    ensures r.0 == !IsDirectory(host, path).0
    ensures r.1 ==> r.0
  {
    var (dir, failed) := IsDirectory(host, path);
    (!dir, failed)
  }

  /** The regular files among the paths a walk visits, in walk order:
      directories, links, devices and the like are left out. */
  function RegularFiles(entries: seq<WalkEntry>): (paths: seq<string>)
    ensures |paths| <= |entries|
    ensures forall p :: p in paths <==> WalkEntry(p, RegularFile) in entries
    decreases |entries|
  {
    if entries == [] then []
    else
      var rest := RegularFiles(entries[1..]);
      assert forall e :: e in entries <==> e == entries[0] || e in entries[1..];
      if entries[0].kind == RegularFile then [entries[0].path] + rest else rest
  }

  lemma {:induction false} RegularFilesAppend(a: seq<WalkEntry>, b: seq<WalkEntry>)
    ensures RegularFiles(a + b) == RegularFiles(a) + RegularFiles(b)
    decreases |a|
  {
    if a == [] {
      assert a + b == b;
    } else {
      assert (a + b)[0] == a[0] && (a + b)[1..] == a[1..] + b;
      RegularFilesAppend(a[1..], b);
    }
  }

  /** One more walked entry: the regular files of the longer prefix are
      those of the shorter one, plus the entry if it is a regular file. */
  lemma RegularFilesSnoc(entries: seq<WalkEntry>, i: nat)
    requires i < |entries|
    ensures RegularFiles(entries[..i + 1])
              == RegularFiles(entries[..i]) + (if entries[i].kind == RegularFile then [entries[i].path] else [])
  {
    assert entries[..i + 1] == entries[..i] + [entries[i]];
    RegularFilesAppend(entries[..i], [entries[i]]);
    assert [entries[i]][1..] == [];
  }

  /** What expandFiles answers: a failed stat gives no file and an error; a
      path that is not a directory stands for itself; a directory for the
      regular files below it. */
  function Expanded(host: Host, path: string): (r: Result<seq<string>, string>)
    ensures r.Err? <==> !host.probe(path).Exists?
    ensures r.Err? ==> r.error == path
    ensures r.Ok? && host.probe(path).kind != Directory ==> r.value == [path]
    ensures r.Ok? && host.probe(path).kind == Directory ==>
              forall p :: p in r.value <==> WalkEntry(p, RegularFile) in host.walk(path)
  {
    var (found, failed) := IsFile(host, path);
    if failed then Err(path)
    else if found then Ok([path])
    else Ok(RegularFiles(host.walk(path)))
  }

  /** expandFiles, as the source runs it: the walk callback appends each
      regular file it visits. */
  method ExpandFiles(host: Host, path: string) returns (list: seq<string>, err: Option<string>)
    ensures err.Some? ==> list == [] && Expanded(host, path) == Err(err.value)
    ensures err.None? ==> Expanded(host, path) == Ok(list)
  {
    list := [];
    var (found, failed) := IsFile(host, path);
    if failed {
      return list, Some(path);
    } else if found {
      return [path], None;
    }
    var entries := host.walk(path);
    var i := 0;
    while i < |entries|
      invariant 0 <= i <= |entries|
      invariant list == RegularFiles(entries[..i])
    {
      RegularFilesSnoc(entries, i);
      if entries[i].kind == RegularFile {
        list := list + [entries[i].path];
      }
      i := i + 1;
    }
    assert entries[..i] == entries;
    return list, None;
  }
}
