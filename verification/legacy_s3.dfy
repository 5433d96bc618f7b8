/** The S3 client of the first generation of the tool
    (src/github.com/UKHomeOffice/s3secrets/s3.go): listing a path of a bucket
    into file and directory entries, and fetching one object. */
module LegacyS3 {
  import opened Outcomes
  import opened Environment
  import opened GoStrings
  import opened Seqs

  /** One listed entry (objectFile): a file carries the size, owner and
      modification time of its object; a directory carries none of them. */
  datatype Entry = Entry(path: string, directory: bool, size: int, owner: string, lastModified: Option<int>)

  /** The shape every listed entry has: a directory exactly when the path
      ends in `/`, and metadata exactly for files. */
  predicate WellFormed(e: Entry) {
    && e.directory == HasSuffix(e.path, "/")
    && (e.directory ==> e.size == 0 && e.owner == "" && e.lastModified == None)
    && (!e.directory ==> e.lastModified.Some?)
  }

  function FileEntry(m: string, o: S3Object): Entry {
    Entry(m, false, o.size, o.owner, Some(o.lastModified))
  }

  function DirEntry(m: string): Entry {
    Entry(m, true, 0, "", None)
  }

  predicate IsFile(e: Entry) {
    !e.directory
  }

  /** The prefix the listing asks S3 for: the directory part of the path,
      or nothing when the path has no directory part. */
  function ListingPrefix(path: string): (prefix: string)
    ensures prefix != "."
  {
    var d := Dir(path);
    if d == "." then "" else d
  }

  /** A path without `/` lists the whole bucket; `dir/name` lists `dir`. */
  lemma ListingPrefixOfPath(dir: string, name: string)
    ensures '/' !in name ==> ListingPrefix(name) == ""
    ensures dir != "" && dir != "." && dir[|dir| - 1] != '/' && '/' !in name ==>
              ListingPrefix(dir + "/" + name) == dir
  {
    if '/' !in name {
      assert LastSlash(name) == -1;
      if dir != "" && dir != "." && dir[|dir| - 1] != '/' {
        var p := dir + "/" + name;
        assert p[|dir|] == '/';
        var j := LastSlash(p);
        assert j == |dir|;
        assert p[..j + 1] == dir + "/";
        assert TrimRightSlashes(dir + "/") == TrimRightSlashes(dir);
        assert TrimRightSlashes(dir) == dir;
      }
    }
  }

  /** What may follow the path in a listed key: a run of word characters,
      `-`, `_` or `.`, then an optional `$` or `/`. */
  const NameTail := "[\\w-_\\.]*[$/]?"

  /** The regular expression a listing matches keys against; the star
      rewrite asks for zero replacements, so the path is used as it is. */
  function Pattern(path: string, recursive: bool): string {
    "^" + ReplaceStar(path, 0) + NameTail + (if recursive then ".*" else "")
  }

  /** Stars in the path are not turned into wildcards, and a recursive
      listing only adds a trailing ".*" to the pattern. */
  lemma PatternOfPath(path: string)
    ensures Pattern(path, false) == "^" + path + NameTail
    ensures Pattern(path, true) == Pattern(path, false) + ".*"
  {
    ReplaceStarIdentity(path, 0);
  }

  /** The entries listed for `objects`, given the directory entries already
      produced (`seen`): each object whose key matches contributes its
      leftmost match; a match ending in `/` is a directory, listed once. */
  function Collect(re: Regexp, pattern: string, objects: seq<S3Object>, seen: set<string>): (list: seq<Entry>)
    decreases |objects|
  {
    if objects == [] then []
    else
      var rest := objects[1..];
      match re.find(pattern, objects[0].key)
      case None => Collect(re, pattern, rest, seen)
      case Some(m) =>
        if !HasSuffix(m, "/") then [FileEntry(m, objects[0])] + Collect(re, pattern, rest, seen)
        else if m in seen then Collect(re, pattern, rest, seen)
        else [DirEntry(m)] + Collect(re, pattern, rest, seen + {m})
  }

  /** The shape of a listing: every entry is well formed, no directory
      entry is one of `seen`, and no directory is listed twice. */
  predicate Shaped(list: seq<Entry>, seen: set<string>) {
    && (forall k :: 0 <= k < |list| ==> WellFormed(list[k]))
    && (forall k :: 0 <= k < |list| && list[k].directory ==> list[k].path !in seen)
    && (forall j, k :: 0 <= j < k < |list| && list[j].directory && list[k].directory ==>
          list[j].path != list[k].path)
  }

  lemma ShapedFile(e: Entry, list: seq<Entry>, seen: set<string>)
    requires WellFormed(e) && !e.directory && Shaped(list, seen)
    ensures Shaped([e] + list, seen)
  {
    var all := [e] + list;
    assert forall k :: 1 <= k < |all| ==> all[k] == list[k - 1];
  }

  lemma ShapedDirectory(m: string, list: seq<Entry>, seen: set<string>)
    requires HasSuffix(m, "/") && m !in seen && Shaped(list, seen + {m})
    ensures Shaped([DirEntry(m)] + list, seen)
  {
    var all := [DirEntry(m)] + list;
    assert forall k :: 1 <= k < |all| ==> all[k] == list[k - 1];
  }

  /** Every listed entry is a directory exactly when its path ends in `/`;
      a directory already produced is not listed again, and no directory is
      listed twice. */
  lemma {:induction false} CollectShape(re: Regexp, pattern: string, objects: seq<S3Object>, seen: set<string>)
    ensures Shaped(Collect(re, pattern, objects, seen), seen)
    decreases |objects|
  {
    if objects != [] {
      var rest := objects[1..];
      match re.find(pattern, objects[0].key)
      case None =>
        CollectShape(re, pattern, rest, seen);
      case Some(m) =>
        if !HasSuffix(m, "/") {
          CollectShape(re, pattern, rest, seen);
          ShapedFile(FileEntry(m, objects[0]), Collect(re, pattern, rest, seen), seen);
        } else if m in seen {
          CollectShape(re, pattern, rest, seen);
        } else {
          CollectShape(re, pattern, rest, seen + {m});
          ShapedDirectory(m, Collect(re, pattern, rest, seen + {m}), seen);
        }
    }
  }

  /** listObjects: None when the pattern does not compile or the listing
      fails; otherwise the collected entries. */
  function ListObjectsSpec(cloud: Cloud, re: Regexp, bucket: string, path: string, recursive: bool): Option<seq<Entry>> {
    var pattern := Pattern(path, recursive);
    if !re.compiles(pattern) then None
    else match cloud.objects(bucket, ListingPrefix(path))
      case None => None
      case Some(objects) => Some(Collect(re, pattern, objects, {}))
  }

  /** One step of the listing loop, from position `i` of the objects. */
  lemma CollectStep(re: Regexp, pattern: string, objects: seq<S3Object>, i: nat, seen: set<string>)
    requires i < |objects|
    ensures Collect(re, pattern, objects[i..], seen)
              == match re.find(pattern, objects[i].key)
                 case None => Collect(re, pattern, objects[i + 1..], seen)
                 case Some(m) =>
                   if !HasSuffix(m, "/") then [FileEntry(m, objects[i])] + Collect(re, pattern, objects[i + 1..], seen)
                   else if m in seen then Collect(re, pattern, objects[i + 1..], seen)
                   else [DirEntry(m)] + Collect(re, pattern, objects[i + 1..], seen + {m})
  {
    assert objects[i..][0] == objects[i] && objects[i..][1..] == objects[i + 1..];
  }

  lemma ConcatAssoc(a: seq<Entry>, b: seq<Entry>, c: seq<Entry>)
    ensures a + (b + c) == (a + b) + c
  {
  }

  /** listObjects, as the source computes it: one pass over the listing with
      a set of the directories already produced. */
  method ListObjects(cloud: Cloud, re: Regexp, bucket: string, path: string, recursive: bool)
    returns (r: Option<seq<Entry>>)
    ensures r == ListObjectsSpec(cloud, re, bucket, path, recursive)
  {
    var prefix := ListingPrefix(path);
    var pattern := Pattern(path, recursive);
    if !re.compiles(pattern) {
      return None;
    }
    var resp := cloud.objects(bucket, prefix);
    if resp.None? {
      return None;
    }
    var objects := resp.value;
    var seenDir: set<string> := {};
    var list: seq<Entry> := [];
    var i := 0;
    while i < |objects|
      invariant 0 <= i <= |objects|
      invariant Collect(re, pattern, objects, {}) == list + Collect(re, pattern, objects[i..], seenDir)
    {
      CollectStep(re, pattern, objects, i, seenDir);
      var matches := re.find(pattern, objects[i].key);
      if matches.Some? {
        var entry := matches.value;
        if !HasSuffix(entry, "/") {
          ConcatAssoc(list, [FileEntry(entry, objects[i])], Collect(re, pattern, objects[i + 1..], seenDir));
          list := list + [FileEntry(entry, objects[i])];
        } else if entry !in seenDir {
          ConcatAssoc(list, [DirEntry(entry)], Collect(re, pattern, objects[i + 1..], seenDir + {entry}));
          seenDir := seenDir + {entry};
          list := list + [DirEntry(entry)];
        }
      }
      i := i + 1;
    }
    assert objects[i..] == [];
    assert list == Collect(re, pattern, objects, {});
    return Some(list);
  }

  /** The file entries a listing holds for `objects`, in listing order:
      one per object whose match does not end in `/`. */
  function MatchedFiles(re: Regexp, pattern: string, objects: seq<S3Object>): seq<Entry>
    decreases |objects|
  {
    if objects == [] then []
    else
      var rest := MatchedFiles(re, pattern, objects[1..]);
      match re.find(pattern, objects[0].key)
      case Some(m) => if !HasSuffix(m, "/") then [FileEntry(m, objects[0])] + rest else rest
      case None => rest
  }

  /** The directory matches of `objects`. */
  function MatchedDirectories(re: Regexp, pattern: string, objects: seq<S3Object>): set<string> {
    set k | 0 <= k < |objects| && re.find(pattern, objects[k].key).Some?
                               && HasSuffix(re.find(pattern, objects[k].key).value, "/")
      :: re.find(pattern, objects[k].key).value
  }

  function DirectoryPaths(list: seq<Entry>): set<string> {
    set k | 0 <= k < |list| && list[k].directory :: list[k].path
  }

  /** Every matching object that is not a directory is listed, in order and
      with its metadata; the directory set does not affect the files. */
  lemma {:induction false} CollectFiles(re: Regexp, pattern: string, objects: seq<S3Object>, seen: set<string>)
    ensures Filter(Collect(re, pattern, objects, seen), IsFile) == MatchedFiles(re, pattern, objects)
    decreases |objects|
  {
    if objects != [] {
      var rest := objects[1..];
      match re.find(pattern, objects[0].key)
      case None =>
        CollectFiles(re, pattern, rest, seen);
      case Some(m) =>
        if !HasSuffix(m, "/") {
          CollectFiles(re, pattern, rest, seen);
          FilterAppend([FileEntry(m, objects[0])], Collect(re, pattern, rest, seen), IsFile);
        } else if m in seen {
          CollectFiles(re, pattern, rest, seen);
        } else {
          CollectFiles(re, pattern, rest, seen + {m});
          FilterAppend([DirEntry(m)], Collect(re, pattern, rest, seen + {m}), IsFile);
        }
    }
  }

  /** Every directory match not already produced is listed (once, by
      Collect's contract), and nothing else is listed as a directory. */
  lemma {:induction false} CollectDirectories(re: Regexp, pattern: string, objects: seq<S3Object>, seen: set<string>)
    ensures DirectoryPaths(Collect(re, pattern, objects, seen)) == MatchedDirectories(re, pattern, objects) - seen
    decreases |objects|
  {
    if objects != [] {
      var rest := objects[1..];
      var list := Collect(re, pattern, objects, seen);
      var all := MatchedDirectories(re, pattern, objects);
      var later := MatchedDirectories(re, pattern, rest);
      assert all == later + (if re.find(pattern, objects[0].key).Some? && HasSuffix(re.find(pattern, objects[0].key).value, "/")
                             then {re.find(pattern, objects[0].key).value} else {}) by {
        forall x | x in all ensures x in later || (re.find(pattern, objects[0].key) == Some(x) && HasSuffix(x, "/")) {
          var k :| 0 <= k < |objects| && re.find(pattern, objects[k].key).Some?
                   && HasSuffix(re.find(pattern, objects[k].key).value, "/") && x == re.find(pattern, objects[k].key).value;
          if k > 0 {
            assert objects[k] == rest[k - 1];
          }
        }
        forall x | x in later ensures x in all {
          var k :| 0 <= k < |rest| && re.find(pattern, rest[k].key).Some?
                   && HasSuffix(re.find(pattern, rest[k].key).value, "/") && x == re.find(pattern, rest[k].key).value;
          assert rest[k] == objects[k + 1];
        }
      }
      match re.find(pattern, objects[0].key)
      case None =>
        CollectDirectories(re, pattern, rest, seen);
      case Some(m) =>
        if !HasSuffix(m, "/") {
          CollectDirectories(re, pattern, rest, seen);
          DirectoryPathsCons(FileEntry(m, objects[0]), Collect(re, pattern, rest, seen));
        } else if m in seen {
          CollectDirectories(re, pattern, rest, seen);
        } else {
          CollectDirectories(re, pattern, rest, seen + {m});
          DirectoryPathsCons(DirEntry(m), Collect(re, pattern, rest, seen + {m}));
        }
    }
  }

  lemma DirectoryPathsCons(e: Entry, list: seq<Entry>)
    ensures DirectoryPaths([e] + list) == DirectoryPaths(list) + (if e.directory then {e.path} else {})
  {
    var l := [e] + list;
    forall x | x in DirectoryPaths(l) ensures x in DirectoryPaths(list) + (if e.directory then {e.path} else {}) {
      var k :| 0 <= k < |l| && l[k].directory && x == l[k].path;
      if k > 0 {
        assert l[k] == list[k - 1];
      }
    }
    assert l[0] == e;
    forall x | x in DirectoryPaths(list) ensures x in DirectoryPaths(l) {
      var k :| 0 <= k < |list| && list[k].directory && x == list[k].path;
      assert l[k + 1] == list[k];
    }
  }

  /** getBlob: fetches the object stored under "/" + path. Only a failed
      request is an error: a failed read of the body still yields the body. */
  function GetBlob(cloud: Cloud, bucket: string, path: string): (blob: Option<Bytes>)
    ensures blob.None? <==> cloud.getObject(bucket, "/" + path).GetFailed?
    ensures blob.Some? ==> blob.value == cloud.getObject(bucket, "/" + path).body
  {
    match cloud.getObject(bucket, "/" + path)
    case GetFailed => None
    case Received(body, _) => Some(body)
  }
}
