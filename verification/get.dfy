/** The get command of the command-line tool (get.go): a cycle over the
    keys under each path that fetches every key the filter accepts and
    writes it below the output directory; with sync the cycle repeats. */
module GetCmd {
  import opened Outcomes
  import opened Environment
  import opened GoStrings
  import opened Utils
  import opened Cmd

  datatype GetOptions = GetOptions(bucket: string, outputDir: string, filter: string,
                                   recursive: bool, flatten: bool, sync: bool)

  /** The options get takes when only the bucket is given. */
  function DefaultGetOptions(bucket: string): (o: GetOptions)
    ensures o.bucket == bucket && o.outputDir == "./secrets" && o.filter == ".*"
    ensures o.flatten && !o.recursive && !o.sync
  {
    GetOptions(bucket, "./secrets", ".*", false, true, false)
  }

  /** One record of the output: a key retrieved, or a key whose retrieval
      failed, with the file it was meant for. */
  datatype Event =
    | Retrieved(key: string, destination: string)
    | Failed(key: string, destination: string, error: Failure)

  /** Whether a key is fetched: the filter matches it and, when not
      recursive, it ends with its own base name. */
  predicate Accepted(o: GetOptions, re: Regexp, key: string) {
    re.matches(o.filter, key) && (o.recursive || HasSuffix(key, Base(key)))
  }

  /** A key that is not empty and does not end in `/` ends with its base
      name, so the recursion test rejects none of the keys a listing gives. */
  lemma RecursionGuardVacuous(o: GetOptions, re: Regexp, key: string)
    requires key != "" && !HasSuffix(key, "/")
    ensures Accepted(o, re, key) <==> re.matches(o.filter, key)
  {
    assert key[|key| - 1] != '/' by {
      assert key[|key| - 1..] == [key[|key| - 1]];
    }
    BaseOfFileName(key);
  }

  /** Where a key is written: its base name in the output directory when
      flattening, otherwise the whole key below the output directory. */
  function Destination(o: GetOptions, key: string): string {
    if o.flatten then o.outputDir + "/" + Base(key) else o.outputDir + "/" + key
  }

  /** processFile: fetches the key, creates the directory of the
      destination and writes the content there, replacing any earlier
      file; a failed fetch creates and writes nothing. */
  function ProcessFile(cloud: Cloud, host: Host, disk: Disk, path: string, key: string, bucket: string): (r: (Disk, Option<Failure>))
    ensures GetFile(cloud, bucket, key).Err? ==> r == (disk, Some(FetchFailed(bucket, key)))
    ensures r.1.None? <==> GetFile(cloud, bucket, key).Ok? && !host.mkdirFails(Dir(path)) && !host.openFails(path)
    ensures r.1.None? ==> r.0 == disk.(files := disk.files[path := GetFile(cloud, bucket, key).value],
                                       dirs := disk.dirs + {Dir(path)})
    ensures r.1.Some? ==> r.0.files == disk.files
    ensures r.0.stdout == disk.stdout
  {
    match GetFile(cloud, bucket, key)
    case Err(e) => (disk, Some(e))
    case Ok(content) =>
      if host.mkdirFails(Dir(path)) then (disk, Some(MkdirFailed(Dir(path))))
      else
        var d := disk.(dirs := disk.dirs + {Dir(path)});
        if host.openFails(path) then (d, Some(WriteFailed(path)))
        else (d.(files := d.files[path := content]), None)
  }

  /** One key of the cycle. Without sync a failure ends the run with that
      error; with sync it is reported, the key is then reported as
      retrieved as well, and the cycle goes on. */
  function GetKey(o: GetOptions, cloud: Cloud, re: Regexp, host: Host, disk: Disk, key: string): (r: (Disk, seq<Event>, Option<Failure>))
    ensures !Accepted(o, re, key) ==> r == (disk, [], None)
    ensures o.sync ==> r.2.None?
    ensures Accepted(o, re, key) ==>
              var dest := Destination(o, key);
              var step := ProcessFile(cloud, host, disk, dest, key, o.bucket);
              && r.0 == step.0
              && (step.1.None? ==> r.1 == [Retrieved(key, dest)] && r.2.None?)
              && (step.1.Some? && !o.sync ==> r.1 == [Failed(key, dest, step.1.value)] && r.2 == step.1)
              && (step.1.Some? && o.sync ==> r.1 == [Failed(key, dest, step.1.value), Retrieved(key, dest)])
  {
    if !Accepted(o, re, key) then (disk, [], None)
    else
      var dest := Destination(o, key);
      var (d, err) := ProcessFile(cloud, host, disk, dest, key, o.bucket);
      if err.None? then (d, [Retrieved(key, dest)], None)
      else if !o.sync then (d, [Failed(key, dest, err.value)], err)
      else (d, [Failed(key, dest, err.value), Retrieved(key, dest)], None)
  }

  /** A run's outcome after `events` were already reported. */
  function Reported(events: seq<Event>, rest: (Disk, seq<Event>, Option<Failure>)): (r: (Disk, seq<Event>, Option<Failure>))
    ensures events == [] ==> r == rest
  {
    assert events == [] ==> events + rest.1 == rest.1;
    (rest.0, events + rest.1, rest.2)
  }

  /** The keys of one listing, in listing order; an error ends the run. */
  function GetKeys(o: GetOptions, cloud: Cloud, re: Regexp, host: Host, disk: Disk, keys: seq<S3Object>): (r: (Disk, seq<Event>, Option<Failure>))
    decreases |keys|
  {
    if keys == [] then (disk, [], None)
    else
      var first := GetKey(o, cloud, re, host, disk, keys[0].key);
      if first.2.Some? then first else Reported(first.1, GetKeys(o, cloud, re, host, first.0, keys[1..]))
  }

  /** One cycle: each path, with one leading `/` dropped, is listed and its
      keys are processed; a failed listing ends the run in both modes. */
  function Cycle(o: GetOptions, cloud: Cloud, re: Regexp, host: Host, disk: Disk, paths: seq<string>): (r: (Disk, seq<Event>, Option<Failure>))
    decreases |paths|
  {
    if paths == [] then (disk, [], None)
    else match BucketKeys(cloud, o.bucket, TrimPrefix(paths[0], "/"))
      case Err(e) => (disk, [], Some(e))
      case Ok(keys) =>
        var first := GetKeys(o, cloud, re, host, disk, keys);
        if first.2.Some? then first else Reported(first.1, Cycle(o, cloud, re, host, first.0, paths[1..]))
  }

  /** What S3 and the filesystem answer during one sync cycle: they may
      change between polls. */
  datatype Poll = Poll(cloud: Cloud, host: Host)

  /** With sync the cycle repeats, the i-th cycle seeing the answers of
      `polls[i]`; the number of polls is the number of cycles that complete
      before the run is told to stop. */
  function Rounds(o: GetOptions, re: Regexp, disk: Disk, paths: seq<string>, polls: seq<Poll>): (r: (Disk, seq<Event>, Option<Failure>))
    decreases |polls|
  {
    if polls == [] then (disk, [], None)
    else
      var first := Cycle(o, polls[0].cloud, re, polls[0].host, disk, paths);
      if first.2.Some? then first else Reported(first.1, Rounds(o, re, first.0, paths, polls[1..]))
  }

  /** getFiles: the filter must compile and the output directory must be
      made before anything is listed; without sync one cycle runs against
      `cloud` and `host`, with sync one cycle per poll. */
  function GetFilesSpec(o: GetOptions, cloud: Cloud, re: Regexp, host: Host, disk: Disk, args: seq<string>, polls: seq<Poll>): (r: (Disk, seq<Event>, Option<Failure>))
    ensures !re.compiles(o.filter) ==> r == (disk, [], Some(InvalidFilter(o.filter)))
    ensures re.compiles(o.filter) && host.mkdirFails(o.outputDir) ==> r == (disk, [], Some(MkdirFailed(o.outputDir)))
  {
    if !re.compiles(o.filter) then (disk, [], Some(InvalidFilter(o.filter)))
    else if host.mkdirFails(o.outputDir) then (disk, [], Some(MkdirFailed(o.outputDir)))
    else
      var d := disk.(dirs := disk.dirs + {o.outputDir});
      if !o.sync then Cycle(o, cloud, re, host, d, GetPaths(args))
      else Rounds(o, re, d, GetPaths(args), polls)
  }

  // ---------------------------------------------------------------------
  // The loops, as the source runs them
  // ---------------------------------------------------------------------

  /** A run that already reported `a` and then `b` has reported `a + b`. */
  lemma ReportedThen(a: seq<Event>, b: seq<Event>, rest: (Disk, seq<Event>, Option<Failure>))
    ensures Reported(a, Reported(b, rest)) == Reported(a + b, rest)
  {
    assert a + (b + rest.1) == (a + b) + rest.1;
  }

  /** One step of the key loop, from position `i` of the listing. */
  lemma GetKeysStep(o: GetOptions, cloud: Cloud, re: Regexp, host: Host, disk: Disk, keys: seq<S3Object>, i: nat)
    requires i < |keys|
    ensures var first := GetKey(o, cloud, re, host, disk, keys[i].key);
            GetKeys(o, cloud, re, host, disk, keys[i..])
              == if first.2.Some? then first else Reported(first.1, GetKeys(o, cloud, re, host, first.0, keys[i + 1..]))
  {
    assert keys[i..][0] == keys[i] && keys[i..][1..] == keys[i + 1..];
  }

  method ProcessKeys(o: GetOptions, cloud: Cloud, re: Regexp, host: Host, disk: Disk, keys: seq<S3Object>)
    returns (d: Disk, events: seq<Event>, err: Option<Failure>)
    ensures (d, events, err) == GetKeys(o, cloud, re, host, disk, keys)
  {
    d := disk;
    events := [];
    var i := 0;
    assert keys[i..] == keys;
    while i < |keys|
      invariant 0 <= i <= |keys|
      invariant GetKeys(o, cloud, re, host, disk, keys) == Reported(events, GetKeys(o, cloud, re, host, d, keys[i..]))
    {
      GetKeysStep(o, cloud, re, host, d, keys, i);
      var step := GetKey(o, cloud, re, host, d, keys[i].key);
      if step.2.Some? {
        return step.0, events + step.1, step.2;
      }
      ReportedThen(events, step.1, GetKeys(o, cloud, re, host, step.0, keys[i + 1..]));
      d := step.0;
      events := events + step.1;
      i := i + 1;
    }
    assert events + [] == events;
    return d, events, None;
  }

  method RunCycle(o: GetOptions, cloud: Cloud, re: Regexp, host: Host, disk: Disk, paths: seq<string>)
    returns (d: Disk, events: seq<Event>, err: Option<Failure>)
    ensures (d, events, err) == Cycle(o, cloud, re, host, disk, paths)
  {
    d := disk;
    events := [];
    var i := 0;
    assert paths[i..] == paths;
    while i < |paths|
      invariant 0 <= i <= |paths|
      invariant Cycle(o, cloud, re, host, disk, paths) == Reported(events, Cycle(o, cloud, re, host, d, paths[i..]))
    {
      assert paths[i..][0] == paths[i] && paths[i..][1..] == paths[i + 1..];
      var p := TrimPrefix(paths[i], "/");
      var files := ListBucketKeys(cloud, o.bucket, p);
      assert files == BucketKeys(cloud, o.bucket, p);
      if files.Err? {
        assert events + [] == events;
        return d, events, Some(files.error);
      }
      var d', found, e := ProcessKeys(o, cloud, re, host, d, files.value);
      if e.Some? {
        return d', events + found, e;
      }
      var rest := Cycle(o, cloud, re, host, d', paths[i + 1..]);
      assert events + (found + rest.1) == (events + found) + rest.1;
      d := d';
      events := events + found;
      i := i + 1;
    }
    assert events + [] == events;
    return d, events, None;
  }

  /** One step of the sync loop, from poll `n`. */
  lemma RoundsStep(o: GetOptions, re: Regexp, disk: Disk, paths: seq<string>, polls: seq<Poll>, n: nat)
    requires n < |polls|
    ensures var first := Cycle(o, polls[n].cloud, re, polls[n].host, disk, paths);
            Rounds(o, re, disk, paths, polls[n..])
              == if first.2.Some? then first else Reported(first.1, Rounds(o, re, first.0, paths, polls[n + 1..]))
  {
    assert polls[n..][0] == polls[n] && polls[n..][1..] == polls[n + 1..];
  }

  /** The sync loop: cycles until a cycle fails or the run is told to stop. */
  method RunRounds(o: GetOptions, re: Regexp, disk: Disk, paths: seq<string>, polls: seq<Poll>)
    returns (d: Disk, events: seq<Event>, err: Option<Failure>)
    ensures (d, events, err) == Rounds(o, re, disk, paths, polls)
  {
    d := disk;
    events := [];
    var n := 0;
    assert polls[n..] == polls;
    while n < |polls|
      invariant 0 <= n <= |polls|
      invariant Rounds(o, re, disk, paths, polls) == Reported(events, Rounds(o, re, d, paths, polls[n..]))
    {
      RoundsStep(o, re, d, paths, polls, n);
      var d', found, e := RunCycle(o, polls[n].cloud, re, polls[n].host, d, paths);
      if e.Some? {
        return d', events + found, e;
      }
      ReportedThen(events, found, Rounds(o, re, d', paths, polls[n + 1..]));
      d := d';
      events := events + found;
      n := n + 1;
    }
    assert polls[n..] == [];
    assert events + [] == events;
    return d, events, None;
  }

  /** getFiles, as the source runs it; when syncing, the run is told to
      stop after one complete cycle per poll. */
  method GetFiles(o: GetOptions, cloud: Cloud, re: Regexp, host: Host, disk: Disk, args: seq<string>, polls: seq<Poll>)
    returns (d: Disk, events: seq<Event>, err: Option<Failure>)
    ensures (d, events, err) == GetFilesSpec(o, cloud, re, host, disk, args, polls)
  {
    if !re.compiles(o.filter) {
      return disk, [], Some(InvalidFilter(o.filter));
    }
    if host.mkdirFails(o.outputDir) {
      return disk, [], Some(MkdirFailed(o.outputDir));
    }
    d := disk.(dirs := disk.dirs + {o.outputDir});
    var paths := GetPaths(args);
    if !o.sync {
      d, events, err := RunCycle(o, cloud, re, host, d, paths);
    } else {
      d, events, err := RunRounds(o, re, d, paths, polls);
    }
  }

  // ---------------------------------------------------------------------
  // Properties of a cycle
  // ---------------------------------------------------------------------

  /** Splitting a listing in two: without sync the second part runs only
      when the first ends without an error; with sync both parts always run. */
  lemma {:induction false} GetKeysAppend(o: GetOptions, cloud: Cloud, re: Regexp, host: Host, disk: Disk, a: seq<S3Object>, b: seq<S3Object>)
    ensures var first := GetKeys(o, cloud, re, host, disk, a);
            GetKeys(o, cloud, re, host, disk, a + b)
              == if first.2.Some? then first else Reported(first.1, GetKeys(o, cloud, re, host, first.0, b))
    decreases |a|
  {
    if a == [] {
      assert a + b == b;
    } else {
      assert (a + b)[0] == a[0] && (a + b)[1..] == a[1..] + b;
      var step := GetKey(o, cloud, re, host, disk, a[0].key);
      if step.2.None? {
        GetKeysAppend(o, cloud, re, host, step.0, a[1..], b);
        var tail := GetKeys(o, cloud, re, host, step.0, a[1..]);
        if tail.2.None? {
          var second := GetKeys(o, cloud, re, host, tail.0, b);
          assert step.1 + (tail.1 + second.1) == (step.1 + tail.1) + second.1;
        }
      }
    }
  }

  /** With sync an accepted key is reported as retrieved, even when it
      failed. */
  lemma SyncKeyRetrieved(o: GetOptions, cloud: Cloud, re: Regexp, host: Host, disk: Disk, key: string)
    requires o.sync && Accepted(o, re, key)
    ensures Retrieved(key, Destination(o, key)) in GetKey(o, cloud, re, host, disk, key).1
  {
  }

  /** With sync no key stops the cycle: every key of the listing is
      attempted and reported. */
  lemma {:induction false} SyncNeverStops(o: GetOptions, cloud: Cloud, re: Regexp, host: Host, disk: Disk, keys: seq<S3Object>)
    requires o.sync
    ensures GetKeys(o, cloud, re, host, disk, keys).2.None?
    ensures forall k :: 0 <= k < |keys| && Accepted(o, re, keys[k].key) ==>
              Retrieved(keys[k].key, Destination(o, keys[k].key)) in GetKeys(o, cloud, re, host, disk, keys).1
    decreases |keys|
  {
    if keys != [] {
      var step := GetKey(o, cloud, re, host, disk, keys[0].key);
      SyncNeverStops(o, cloud, re, host, step.0, keys[1..]);
      var rest := GetKeys(o, cloud, re, host, step.0, keys[1..]);
      assert GetKeys(o, cloud, re, host, disk, keys) == Reported(step.1, rest);
      forall k | 0 <= k < |keys| && Accepted(o, re, keys[k].key)
        ensures Retrieved(keys[k].key, Destination(o, keys[k].key)) in step.1 + rest.1
      {
        if k > 0 {
          assert keys[k] == keys[1..][k - 1];
        } else {
          SyncKeyRetrieved(o, cloud, re, host, disk, keys[0].key);
        }
      }
    }
  }

  /** Every key the listing gives is not empty in practice; a listing's
      keys never end in `/`. Under that, the recursion flag makes no
      difference to a cycle. */
  predicate PlainKeys(keys: seq<S3Object>) {
    forall k :: 0 <= k < |keys| ==> keys[k].key != "" && !HasSuffix(keys[k].key, "/")
  }

  lemma {:induction false} RecursionIrrelevant(o: GetOptions, cloud: Cloud, re: Regexp, host: Host, disk: Disk, keys: seq<S3Object>)
    requires PlainKeys(keys)
    ensures GetKeys(o, cloud, re, host, disk, keys) == GetKeys(o.(recursive := !o.recursive), cloud, re, host, disk, keys)
    decreases |keys|
  {
    if keys != [] {
      var o' := o.(recursive := !o.recursive);
      RecursionGuardVacuous(o, re, keys[0].key);
      RecursionGuardVacuous(o', re, keys[0].key);
      assert Destination(o, keys[0].key) == Destination(o', keys[0].key);
      var step := GetKey(o, cloud, re, host, disk, keys[0].key);
      assert step == GetKey(o', cloud, re, host, disk, keys[0].key);
      RecursionIrrelevant(o, cloud, re, host, step.0, keys[1..]);
    }
  }

  // The effect of a cycle on the disk does not depend on the disk: every
  // cycle rewrites every accepted key, with no check of what is there.

  /** Files written (the last write to a path wins) and directories made. */
  datatype Effect = Effect(files: map<string, Bytes>, dirs: set<string>)

  function Apply(disk: Disk, e: Effect): Disk {
    disk.(files := disk.files + e.files, dirs := disk.dirs + e.dirs)
  }

  function Then(e1: Effect, e2: Effect): Effect {
    Effect(e1.files + e2.files, e1.dirs + e2.dirs)
  }

  lemma ApplyThen(disk: Disk, e1: Effect, e2: Effect)
    ensures Apply(Apply(disk, e1), e2) == Apply(disk, Then(e1, e2))
  {
    assert (disk.files + e1.files) + e2.files == disk.files + (e1.files + e2.files);
  }

  lemma ApplyTwice(disk: Disk, e: Effect)
    ensures Apply(Apply(disk, e), e) == Apply(disk, e)
  {
    assert (disk.files + e.files) + e.files == disk.files + e.files;
  }

  lemma ApplyNothing(disk: Disk)
    ensures Apply(disk, Effect(map[], {})) == disk
  {
    assert disk.files + map[] == disk.files;
  }

  /** What processFile does, described without a disk. */
  function FileEffect(cloud: Cloud, host: Host, path: string, key: string, bucket: string): (Effect, Option<Failure>) {
    match GetFile(cloud, bucket, key)
    case Err(e) => (Effect(map[], {}), Some(e))
    case Ok(content) =>
      if host.mkdirFails(Dir(path)) then (Effect(map[], {}), Some(MkdirFailed(Dir(path))))
      else if host.openFails(path) then (Effect(map[], {Dir(path)}), Some(WriteFailed(path)))
      else (Effect(map[path := content], {Dir(path)}), None)
  }

  lemma ProcessFileIsEffect(cloud: Cloud, host: Host, disk: Disk, path: string, key: string, bucket: string)
    ensures var e := FileEffect(cloud, host, path, key, bucket);
            ProcessFile(cloud, host, disk, path, key, bucket) == (Apply(disk, e.0), e.1)
  {
    ApplyNothing(disk);
    if GetFile(cloud, bucket, key).Ok? && !host.mkdirFails(Dir(path)) {
      assert disk.files + map[] == disk.files;
      assert disk.files + map[path := GetFile(cloud, bucket, key).value] == disk.files[path := GetFile(cloud, bucket, key).value];
    }
  }

  /** What one key does, described without a disk: the reference for
      GetKey. */
  function KeyEffect(o: GetOptions, cloud: Cloud, re: Regexp, host: Host, key: string): (Effect, seq<Event>, Option<Failure>) {
    if !Accepted(o, re, key) then (Effect(map[], {}), [], None)
    else
      var dest := Destination(o, key);
      var (made, err) := FileEffect(cloud, host, dest, key, o.bucket);
      if err.None? then (made, [Retrieved(key, dest)], None)
      else if !o.sync then (made, [Failed(key, dest, err.value)], err)
      else (made, [Failed(key, dest, err.value), Retrieved(key, dest)], None)
  }

  function KeysEffect(o: GetOptions, cloud: Cloud, re: Regexp, host: Host, keys: seq<S3Object>): (Effect, seq<Event>, Option<Failure>)
    decreases |keys|
  {
    if keys == [] then (Effect(map[], {}), [], None)
    else
      var first := KeyEffect(o, cloud, re, host, keys[0].key);
      if first.2.Some? then first
      else
        var rest := KeysEffect(o, cloud, re, host, keys[1..]);
        (Then(first.0, rest.0), first.1 + rest.1, rest.2)
  }

  function CycleEffect(o: GetOptions, cloud: Cloud, re: Regexp, host: Host, paths: seq<string>): (Effect, seq<Event>, Option<Failure>)
    decreases |paths|
  {
    if paths == [] then (Effect(map[], {}), [], None)
    else match BucketKeys(cloud, o.bucket, TrimPrefix(paths[0], "/"))
      case Err(e) => (Effect(map[], {}), [], Some(e))
      case Ok(keys) =>
        var first := KeysEffect(o, cloud, re, host, keys);
        if first.2.Some? then first
        else
          var rest := CycleEffect(o, cloud, re, host, paths[1..]);
          (Then(first.0, rest.0), first.1 + rest.1, rest.2)
  }

  lemma GetKeyIsEffect(o: GetOptions, cloud: Cloud, re: Regexp, host: Host, disk: Disk, key: string)
    ensures var e := KeyEffect(o, cloud, re, host, key);
            GetKey(o, cloud, re, host, disk, key) == (Apply(disk, e.0), e.1, e.2)
  {
    ApplyNothing(disk);
    if Accepted(o, re, key) {
      ProcessFileIsEffect(cloud, host, disk, Destination(o, key), key, o.bucket);
    }
  }

  lemma {:induction false} GetKeysIsEffect(o: GetOptions, cloud: Cloud, re: Regexp, host: Host, disk: Disk, keys: seq<S3Object>)
    ensures var e := KeysEffect(o, cloud, re, host, keys);
            GetKeys(o, cloud, re, host, disk, keys) == (Apply(disk, e.0), e.1, e.2)
    decreases |keys|
  {
    if keys == [] {
      ApplyNothing(disk);
    } else {
      GetKeyIsEffect(o, cloud, re, host, disk, keys[0].key);
      var first := KeyEffect(o, cloud, re, host, keys[0].key);
      if first.2.None? {
        GetKeysIsEffect(o, cloud, re, host, Apply(disk, first.0), keys[1..]);
        ApplyThen(disk, first.0, KeysEffect(o, cloud, re, host, keys[1..]).0);
      }
    }
  }

  /** A cycle changes the disk by an effect fixed by S3 and the filesystem's
      answers alone. */
  lemma {:induction false} CycleIsEffect(o: GetOptions, cloud: Cloud, re: Regexp, host: Host, disk: Disk, paths: seq<string>)
    ensures var e := CycleEffect(o, cloud, re, host, paths);
            Cycle(o, cloud, re, host, disk, paths) == (Apply(disk, e.0), e.1, e.2)
    decreases |paths|
  {
    if paths == [] {
      ApplyNothing(disk);
    } else {
      var listing := BucketKeys(cloud, o.bucket, TrimPrefix(paths[0], "/"));
      if listing.Err? {
        ApplyNothing(disk);
      } else {
        GetKeysIsEffect(o, cloud, re, host, disk, listing.value);
        var first := KeysEffect(o, cloud, re, host, listing.value);
        if first.2.None? {
          CycleIsEffect(o, cloud, re, host, Apply(disk, first.0), paths[1..]);
          ApplyThen(disk, first.0, CycleEffect(o, cloud, re, host, paths[1..]).0);
        }
      }
    }
  }

  /** Running a cycle again, with S3 and the filesystem answering as
      before, leaves the disk as the first cycle left it and reports the
      same: nothing is skipped as unchanged, and nothing else changes. */
  lemma CycleIdempotent(o: GetOptions, cloud: Cloud, re: Regexp, host: Host, disk: Disk, paths: seq<string>)
    ensures var first := Cycle(o, cloud, re, host, disk, paths);
            var second := Cycle(o, cloud, re, host, first.0, paths);
            second == first
  {
    var e := CycleEffect(o, cloud, re, host, paths);
    CycleIsEffect(o, cloud, re, host, disk, paths);
    CycleIsEffect(o, cloud, re, host, Apply(disk, e.0), paths);
    ApplyTwice(disk, e.0);
  }

  /** Every poll answers as S3 and the filesystem did at the start. */
  ghost predicate Unchanged(polls: seq<Poll>, cloud: Cloud, host: Host) {
    forall i :: 0 <= i < |polls| ==> polls[i] == Poll(cloud, host)
  }

  /** While S3 and the filesystem keep answering the same, syncing for any
      number of rounds leaves the disk as one cycle does, and fails exactly
      when the first cycle fails: a round only rewrites what the first one
      wrote. */
  lemma {:induction false} RoundsLikeOneCycle(o: GetOptions, cloud: Cloud, re: Regexp, host: Host, disk: Disk, paths: seq<string>, polls: seq<Poll>)
    requires |polls| >= 1 && Unchanged(polls, cloud, host)
    ensures var once := Cycle(o, cloud, re, host, disk, paths);
            var r := Rounds(o, re, disk, paths, polls);
            r.0 == once.0 && r.2 == once.2
    decreases |polls|
  {
    assert polls[0] == Poll(cloud, host);
    var once := Cycle(o, cloud, re, host, disk, paths);
    if once.2.None? && |polls| > 1 {
      CycleIdempotent(o, cloud, re, host, disk, paths);
      assert Unchanged(polls[1..], cloud, host) by {
        forall i | 0 <= i < |polls[1..]| ensures polls[1..][i] == Poll(cloud, host) {
          assert polls[1..][i] == polls[i + 1];
        }
      }
      RoundsLikeOneCycle(o, cloud, re, host, once.0, paths, polls[1..]);
    }
  }

  /** Sync picks up what changed: the disk after a run of rounds is the disk
      after the last round, which ran against the last poll's answers. */
  lemma {:induction false} RoundsLastPoll(o: GetOptions, re: Regexp, disk: Disk, paths: seq<string>, polls: seq<Poll>)
    requires |polls| >= 1
    ensures var before := Rounds(o, re, disk, paths, polls[..|polls| - 1]);
            var last := polls[|polls| - 1];
            var r := Rounds(o, re, disk, paths, polls);
            before.2.None? ==> r.0 == Cycle(o, last.cloud, re, last.host, before.0, paths).0
    decreases |polls|
  {
    var first := Cycle(o, polls[0].cloud, re, polls[0].host, disk, paths);
    if |polls| == 1 {
      assert polls[..0] == [];
    } else {
      assert polls[..|polls| - 1][0] == polls[0];
      assert polls[..|polls| - 1][1..] == polls[1..][..|polls[1..]| - 1];
      if first.2.None? {
        RoundsLastPoll(o, re, first.0, paths, polls[1..]);
      }
    }
  }
}
