/** What the commands observe and change outside themselves.

    The remote services (S3 and KMS), the regular-expression engine and the
    answers of the local filesystem are ORACLES: fixed functions for the
    duration of one command. What a command changes is recorded: on the local
    side as a `Disk` value (files written or removed, directories created,
    bytes written to standard output), on the remote side as the sequence of
    mutating `Request`s it issued, in order. */
module Environment {
  import opened Outcomes

  newtype byte = x: int | 0 <= x < 256
  type Bytes = seq<byte>

  // ---------------------------------------------------------------------
  // Local filesystem
  // ---------------------------------------------------------------------

  /** What stat reports a path to be; OtherFile covers symbolic links,
      devices, sockets and pipes: neither a directory nor a regular file. */
  datatype Kind = RegularFile | Directory | OtherFile

  /** The answer of os.Stat, and whether os.Open of an existing path succeeds. */
  datatype Probe = NotExist | StatFailed | Exists(kind: Kind, openable: bool)

  /** One path visited by filepath.Walk. */
  datatype WalkEntry = WalkEntry(path: string, kind: Kind)

  /** The answers of the local filesystem. */
  datatype Host = Host(
    probe: string -> Probe,          // os.Stat / os.Open
    walk: string -> seq<WalkEntry>,  // filepath.Walk(root): the root, then everything below it, in walk order
    read: string -> Option<Bytes>,   // reading a whole file (ioutil.ReadFile, or an opened file streamed to S3)
    openFails: string -> bool,       // os.OpenFile(path, O_CREAT|O_WRONLY|O_TRUNC) fails
    mkdirFails: string -> bool,      // os.Mkdir / os.MkdirAll fails
    removeFails: string -> bool)     // os.Remove fails

  /** The local state a command changes: regular files and their content,
      directories it created, and everything written to standard output. */
  datatype Disk = Disk(files: map<string, Bytes>, dirs: set<string>, stdout: Bytes)

  // ---------------------------------------------------------------------
  // AWS
  // ---------------------------------------------------------------------

  /** One entry of an S3 ListObjects answer. */
  datatype S3Object = S3Object(key: string, size: int, owner: string, lastModified: int,
                               etag: string, storageClass: string)

  /** One entry of an S3 ListBuckets answer. */
  datatype BucketInfo = BucketInfo(name: string, created: int)

  /** The answer to GetObject: a failed request, or a body together with
      whether reading that body failed. */
  datatype ObjectResponse = GetFailed | Received(body: Bytes, readFailed: bool)

  /** One entry of a KMS ListAliases answer; the target key id may be nil. */
  datatype Alias = Alias(name: string, target: Option<string>)

  /** The requests that change the remote store. */
  datatype Request =
    | PutObject(bucket: string, key: string, body: Bytes, sseKmsId: string)
    | DeleteObject(bucket: string, key: string)
    | CreateBucket(bucket: string)
    | DeleteBucket(bucket: string)

  /** The answers of S3 and KMS; None stands for an error answer. */
  datatype Cloud = Cloud(
    buckets: Option<seq<BucketInfo>>,                      // s3 ListBuckets
    objects: (string, string) -> Option<seq<S3Object>>,    // s3 ListObjects(bucket, prefix)
    getObject: (string, string) -> ObjectResponse,         // s3 GetObject(bucket, key)
    accepts: Request -> bool,                              // whether a mutating request succeeds
    encrypt: (string, Bytes) -> Option<Bytes>,             // kms Encrypt(key id, plaintext)
    decrypt: Bytes -> Option<Bytes>,                       // kms Decrypt(ciphertext)
    aliases: Option<seq<Alias>>)                           // kms ListAliases

  /** Go's regexp package: whether a pattern compiles, whether it matches a
      string somewhere, and the leftmost match (FindAllString(s, 1)). */
  datatype Regexp = Regexp(
    compiles: string -> bool,
    matches: (string, string) -> bool,
    find: (string, string) -> Option<string>)

  /** The outcome of a loop that produced `sent` (requests issued, bytes
      printed, lines listed) and then went on as `rest`. */
  function After<T, E>(sent: seq<T>, rest: (seq<T>, Option<E>)): (r: (seq<T>, Option<E>))
    ensures sent == [] ==> r == rest
  {
    assert sent == [] ==> sent + rest.0 == rest.0;
    (sent + rest.0, rest.1)
  }

  /** A loop that issued `a` and then `b` has issued `a + b`. */
  lemma AfterThen<T, E>(a: seq<T>, b: seq<T>, rest: (seq<T>, Option<E>))
    ensures After(a, After(b, rest)) == After(a + b, rest)
  {
    assert a + (b + rest.0) == (a + b) + rest.0;
  }
}
