# s3secrets in Dafny

s3secrets keeps secrets in S3 buckets. KMS encrypts them, either client side or through S3's server-side encryption. The repository holds two generations of the tool:

- **The first generation** lives under `src/github.com/UKHomeOffice/s3secrets/`. It has a one-shot `main` that downloads and decrypts the files under some paths. It also has `s3` sub-commands (`put`, `get`, `cat`, `ls`, `rm`, `buckets`) and `kms` sub-commands (`encrypt`, `decrypt`, `list`).
- **The second generation** sits at the root of the repository. It is built on a command-line library: `get` (one-shot or sync), `put`, `list`, `delete`, `buckets` (ls/create/delete), the required-option check, the choice of credentials, and the output formatter.

This project models the logic of both generations, kept apart. It covers:

- the path and key computations;
- the listing filters;
- the fetch → decrypt → write pipelines with their failure policies;
- the upload loops;
- the bucket and key removal rules;
- the option and credential checks;
- the format dispatch.

## How the environment is modelled

- **Remote services and the local filesystem are oracles.** `Environment.Cloud` holds S3's and KMS's answers. `Environment.Host` holds what the filesystem answers to stat, walk, read, open, mkdir and remove. `Environment.Regexp` says whether a pattern compiles and whether it matches a string. Each of these is a datatype of total functions, fixed for the length of one command.
- **Requests that change the remote store are recorded.** Each command returns them as a trace `seq<Request>`. `ObjectStore.PerformAll` gives the trace's effect on an abstract store (bucket name → set of keys). A request the cloud accepts takes effect; a refused one changes nothing.
- **Local effects are a value.** `Environment.Disk` holds the files with their bytes, the directories made, and standard output.
- **Every loop of the source is a method with a `while` or `for` loop.** Its `ensures` ties its outputs to a recursive function over the remaining input. The properties are lemmas about those functions.
- **Stateful objects are classes.** The formatter (`Formatting.Formatter`) and the command's client holder (`Cli.CliCommand`) have fields that the source updates in place.

The model follows the code as written. `get.go:211` leaves a change cache as a TODO: the code skips nothing as unchanged, and every cycle rewrites every accepted key. The model therefore proves the opposite property. A second cycle against the same answers rewrites the same files and reports the same events (`GetCmd.CycleIdempotent`).

## Model

| member | source | states |
|---|---|---|
| GoStrings.TrimPrefix | src/github.com/UKHomeOffice/s3secrets/run_s3.go:491 | strings.TrimPrefix removes exactly one leading occurrence of the prefix, or returns the string unchanged |
| GoStrings.TrimSuffix | src/github.com/UKHomeOffice/s3secrets/run_s3.go:235 | strings.TrimSuffix removes exactly one trailing occurrence of the suffix, or returns the string unchanged |
| GoStrings.TrimSuffixOfAppended | src/github.com/UKHomeOffice/s3secrets/run_s3.go:224-235 | appending the suffix and trimming it again gives back the original name |
| GoStrings.TrimSuffixOfJoined | src/github.com/UKHomeOffice/s3secrets/run_s3.go:324-332 | trimming a suffix of the last part of a joined path trims it from that part only |
| GoStrings.TrimRightSlashes | put.go:96 | strings.TrimRight(path, "/") drops exactly the trailing run of slashes, so the result never ends in "/" |
| GoStrings.LastSlash | get.go:133 | the index of the last "/", or -1; no "/" follows it |
| GoStrings.Base | get.go:133 | filepath.Base is never empty |
| GoStrings.Dir | src/github.com/UKHomeOffice/s3secrets/s3.go:72-75 | filepath.Dir is never empty |
| GoStrings.BaseOfFileName | get.go:140-142 | the base name of a path not ending in "/" is a slash-free suffix of it |
| GoStrings.SuffixOfBase | src/github.com/UKHomeOffice/s3secrets/run_s3.go:224-235 | a slash-free suffix of a file path is also a suffix of its base name |
| GoStrings.BaseOfName | put.go:91-97 | a name without "/" is its own base name |
| GoStrings.BaseOfJoin | put.go:96 | the base name of dir + "/" + name is name, whatever dir is |
| GoStrings.Count | src/github.com/UKHomeOffice/s3secrets/run_s3.go:253 | the number of occurrences is at most the length, and zero exactly when the character is absent |
| GoStrings.ReplaceStarIdentity | src/github.com/UKHomeOffice/s3secrets/s3.go:80-82 | strings.Replace with count 0, or on a string without "*", changes nothing, so a star in a listed path is never a wildcard |
| GoStrings.ReplaceAllStarsAppend | src/github.com/UKHomeOffice/s3secrets/run_s3.go:253 | replacing every "*" by ".*" distributes over concatenation, and maps "*" to ".*" |
| GoStrings.ReplaceNegative | src/github.com/UKHomeOffice/s3secrets/run_s3.go:253 | every negative count means replace all |
| GoStrings.ReplaceAllStarsLength | src/github.com/UKHomeOffice/s3secrets/run_s3.go:253 | replacing every star adds exactly one character per star |
| GoStrings.Split | cli.go:125 | strings.Split gives one more part than there are separators, and no part contains one |
| GoStrings.SplitThenJoin | cli.go:125 | joining the parts of a split gives back the string |
| GoStrings.JoinThenSplit | cli.go:125 | splitting a join of separator-free parts gives back the parts |
| GoStrings.SplitPlain | cli.go:125 | a separator-free string splits into itself |
| GoStrings.SplitAtFirst | cli.go:125 | a split is taken apart at its first separator |
| Seqs.Filter | cmd.go:138-143 | the kept elements are exactly those of the input that pass the test, and all of them pass it |
| Seqs.FilterAppend | cmd.go:138-143 | filtering commutes with concatenation, so listing order is kept |
| Seqs.FilterAll | list.go:74 | filtering a listing whose elements all pass keeps all of it |
| Environment.After | src/github.com/UKHomeOffice/s3secrets/run_s3.go:223-244 | the continuation of the put, cat, ls and rm loops: a loop that has issued nothing yet has the outcome of the rest of the loop |
| LegacyUtils.IsDirectory | src/github.com/UKHomeOffice/s3secrets/utils.go:26-39 | isDirectory fails exactly when stat or open fails, and then answers false; otherwise it answers whether the path is a directory |
| LegacyUtils.ExistenceAndDirectory | src/github.com/UKHomeOffice/s3secrets/utils.go:26-66 | fileExists is false only on "does not exist"; an absent path fails isDirectory; any other stat failure counts as existing |
| LegacyUtils.NonDirectories | src/github.com/UKHomeOffice/s3secrets/utils.go:44-49 | directoryList keeps exactly the walked paths that are not directories |
| LegacyUtils.NonDirectoriesAppend | src/github.com/UKHomeOffice/s3secrets/utils.go:44-49 | the listing of a walk keeps walk order |
| LegacyUtils.DirectoryList | src/github.com/UKHomeOffice/s3secrets/utils.go:42-55 | directoryList, as its callback runs, returns the non-directory entries in walk order |
| LegacyUtils.WriteFile | src/github.com/UKHomeOffice/s3secrets/utils.go:69-87 | a dry run appends to stdout and touches no file; an open failure is an error with nothing written; otherwise the file holds exactly the content |
| LegacyKms.EncryptFile | src/github.com/UKHomeOffice/s3secrets/kms.go:79-91 | the ciphertext of the whole file under the key id, or nothing when the read or KMS fails |
| LegacyKms.DecryptFile | src/github.com/UKHomeOffice/s3secrets/kms.go:52-64 | the plaintext of the whole file, or nothing when the read or KMS fails |
| LegacyS3.ListingPrefix | src/github.com/UKHomeOffice/s3secrets/s3.go:72-75 | the prefix sent to S3 is the directory of the path, with "." replaced by "" |
| LegacyS3.ListingPrefixOfPath | src/github.com/UKHomeOffice/s3secrets/s3.go:72-75 | a path without "/" lists the whole bucket; dir/name lists dir |
| LegacyS3.PatternOfPath | src/github.com/UKHomeOffice/s3secrets/s3.go:77-83 | the key pattern is the literal path (stars not expanded) followed by a name tail; recursive adds ".*" |
| LegacyS3.CollectShape | src/github.com/UKHomeOffice/s3secrets/s3.go:96-118 | every entry is a directory exactly when its path ends in "/"; a directory entry is never one already seen and never repeated |
| LegacyS3.ListObjects | src/github.com/UKHomeOffice/s3secrets/s3.go:68-121 | listObjects, as its loop runs, returns the listing function's answer: nothing on a regex or listing error |
| LegacyS3.CollectFiles | src/github.com/UKHomeOffice/s3secrets/s3.go:98-109 | every matching non-directory object is listed once, in listing order, with size, time and owner |
| LegacyS3.CollectDirectories | src/github.com/UKHomeOffice/s3secrets/s3.go:110-115 | the listed directories are exactly the matched directory paths not seen before |
| LegacyS3.DirectoryPathsCons | src/github.com/UKHomeOffice/s3secrets/s3.go:110-115 | the directories of a listing are those of its head and of its tail |
| LegacyS3.GetBlob | src/github.com/UKHomeOffice/s3secrets/s3.go:148-162 | getBlob asks for key "/" + path, fails only when the request fails, and ignores a body read error |
| LegacyMain.DirExistsIsFileExists | src/github.com/UKHomeOffice/s3secrets/main.go:111-119 | dirExists is false exactly on "does not exist", the same answer as fileExists |
| LegacyMain.TargetInOutputDir | src/github.com/UKHomeOffice/s3secrets/main.go:91 | a file is saved directly inside the output directory under its base name, without the suffix |
| LegacyMain.MainFile | src/github.com/UKHomeOffice/s3secrets/main.go:59-83 | one file is fetched, decrypted whatever its suffix, and saved; any failure leaves the disk as it was and is reported for that file |
| LegacyMain.MainFiles | src/github.com/UKHomeOffice/s3secrets/main.go:59-83 | one report per listed file |
| LegacyMain.MainPaths | src/github.com/UKHomeOffice/s3secrets/main.go:48-85 | a failed listing of a path is fatal; without it every path was listed |
| LegacyMain.ProcessFile | src/github.com/UKHomeOffice/s3secrets/main.go:60-82 | the body of main's inner loop computes the per-file specification |
| LegacyMain.ProcessListing | src/github.com/UKHomeOffice/s3secrets/main.go:59-83 | main's inner loop computes the per-file specification |
| LegacyMain.RunMain | src/github.com/UKHomeOffice/s3secrets/main.go:48-85 | main's outer loop computes the per-path specification |
| LegacyMain.ReportsIndependent | src/github.com/UKHomeOffice/s3secrets/main.go:59-83 | what happens to a file does not depend on the files before it |
| LegacyMain.EveryFileReported | src/github.com/UKHomeOffice/s3secrets/main.go:59-83 | every listed file is reported, in listing order |
| LegacyMain.MainFilesAppend | src/github.com/UKHomeOffice/s3secrets/main.go:59-83 | a listing in two parts is processed as the two parts one after the other |
| LegacyMain.MainDryRunKeepsFiles | src/github.com/UKHomeOffice/s3secrets/main.go:93-103 | a dry run writes no file |
| RunS3.FilterPathCases | src/github.com/UKHomeOffice/s3secrets/run_s3.go:489-499 | filterPath drops one leading "/" and maps exactly "/" and "." to ""; so "//" gives "" and "//x" gives "/x" |
| RunS3.UploadTargetName | src/github.com/UKHomeOffice/s3secrets/run_s3.go:224-235 | the key is TrimSuffix(path,"/") + "/" + Base(file) + suffix, encrypted with the key id; a file already carrying the suffix keeps its name and is not encrypted |
| RunS3.UploadKeyHasSuffix | src/github.com/UKHomeOffice/s3secrets/run_s3.go:224-235 | every uploaded key ends in the suffix |
| RunS3.UploadFile | src/github.com/UKHomeOffice/s3secrets/run_s3.go:458-487 | uploadFile issues at most one upload under the key: the plain bytes without a key id, the ciphertext with one; nothing when the read fails |
| RunS3.UploadOne | src/github.com/UKHomeOffice/s3secrets/run_s3.go:223-243 | a file without the suffix and an empty key id is refused before any upload; success means one accepted upload under the target key |
| RunS3.UploadListAsWritten | src/github.com/UKHomeOffice/s3secrets/run_s3.go:206-220 | as written, the upload list of an argument starts with the argument itself, even for a directory |
| RunS3.UploadList | src/github.com/UKHomeOffice/s3secrets/run_s3.go:206-220 | corrected: a missing or unreadable argument is an error; a file stands for itself; a directory stands for its non-directory entries |
| RunS3.DirectoryPutAsWritten | src/github.com/UKHomeOffice/s3secrets/run_s3.go:184-243 | as written, a put whose first argument is a directory fails on its first upload, the directory itself, with nothing uploaded |
| RunS3.DirectoryPutCorrected | src/github.com/UKHomeOffice/s3secrets/run_s3.go:213-220 | corrected, the directory is never among its own uploads |
| RunS3.UploadAll | src/github.com/UKHomeOffice/s3secrets/run_s3.go:223-244 | the upload loop computes the specification, stopping at the first failure |
| RunS3.RunPutSecrets | src/github.com/UKHomeOffice/s3secrets/run_s3.go:184-248 | runPutSecretsCommand, with the upload list as written, computes its specification |
| RunS3.PutValidation | src/github.com/UKHomeOffice/s3secrets/run_s3.go:192-197 | no files, then no bucket, are errors raised before anything is read or uploaded |
| RunS3.PutUploadsAppend | src/github.com/UKHomeOffice/s3secrets/run_s3.go:223-244 | the first failing file stops the put; the files after it are never uploaded |
| RunS3.PutUploadsComplete | src/github.com/UKHomeOffice/s3secrets/run_s3.go:223-244 | a successful put issued exactly one accepted upload per file, in order, under its target key |
| RunS3.UploadedAllAt | src/github.com/UKHomeOffice/s3secrets/run_s3.go:223-244 | in a successful put the k-th upload is the accepted upload of the k-th file |
| RunS3.PutUploadsAccepted | src/github.com/UKHomeOffice/s3secrets/run_s3.go:223-244 | every upload issued was accepted except possibly the last, the one that stopped the put |
| RunS3.UploadContent | src/github.com/UKHomeOffice/s3secrets/run_s3.go:224-235 | a file carrying the suffix is uploaded byte for byte; any other is uploaded as its ciphertext under the key id |
| RunS3.DestinationName | src/github.com/UKHomeOffice/s3secrets/run_s3.go:324-332 | an object is saved as outputDir/Base(key); when decrypting, the suffix is trimmed from that base name |
| RunS3.GetEntry | src/github.com/UKHomeOffice/s3secrets/run_s3.go:313-339 | directory entries are skipped untouched; a failure leaves the disk as it was; no directory is made |
| RunS3.SaveEntries | src/github.com/UKHomeOffice/s3secrets/run_s3.go:313-339 | get's inner loop computes the specification, stopping at the first failure |
| RunS3.RunGetSecrets | src/github.com/UKHomeOffice/s3secrets/run_s3.go:275-343 | runGetSecretsCommand computes its specification: bucket and paths required, an empty listing is an error |
| RunS3.GetEntriesAppend | src/github.com/UKHomeOffice/s3secrets/run_s3.go:313-339 | the first failing entry stops get; what was written before stays written |
| RunS3.GetEntriesWritesOnlyDestinations | src/github.com/UKHomeOffice/s3secrets/run_s3.go:324-336 | get changes no file except the destinations of the entries it saves |
| RunS3.GetDryRunWritesNoFile | src/github.com/UKHomeOffice/s3secrets/run_s3.go:334-336 | a dry run writes no file |
| RunS3.GetEntrySaves | src/github.com/UKHomeOffice/s3secrets/run_s3.go:313-336 | a saved file holds the fetched object, or its decryption when decrypting, whatever its name; a decrypt failure changes nothing |
| RunS3.CatPlainIgnoresKms | src/github.com/UKHomeOffice/s3secrets/run_s3.go:434-451 | a path cat does not decrypt (no-decrypt set, or no suffix) is printed as stored whatever KMS answers, and fails only when the fetch does |
| RunS3.CatMatchesGet | src/github.com/UKHomeOffice/s3secrets/run_s3.go:434-451 | where cat and get decrypt alike, cat prints exactly the bytes get saves for that key, and fails exactly when get does, with the same error |
| RunS3.RunCatSecrets | src/github.com/UKHomeOffice/s3secrets/run_s3.go:420-455 | runCatSecretsCommand computes its specification |
| RunS3.CatPathsAppend | src/github.com/UKHomeOffice/s3secrets/run_s3.go:434-452 | cat prints the objects one after the other in argument order; a failure keeps what was printed before it |
| RunS3.BucketPatternShape | src/github.com/UKHomeOffice/s3secrets/run_s3.go:253-260 | the bucket filter is anchored with "^" and "$", gains one character per star, and is literal without stars |
| RunS3.MatchingBuckets | src/github.com/UKHomeOffice/s3secrets/run_s3.go:265-269 | exactly the buckets whose name the pattern matches are shown |
| RunS3.RunListBuckets | src/github.com/UKHomeOffice/s3secrets/run_s3.go:251-272 | a failed bucket listing is reported before the filter is compiled; an invalid filter shows nothing; otherwise the matching buckets, in order |
| RunS3.ListArgs | src/github.com/UKHomeOffice/s3secrets/run_s3.go:380-382 | ls without a path lists the bucket root; the arguments are kept otherwise |
| RunS3.ListPathsShape | src/github.com/UKHomeOffice/s3secrets/run_s3.go:385-414 | one listing per path, in argument order, for the normalised path; every entry is well formed; success lists every path |
| RunS3.RunListSecrets | src/github.com/UKHomeOffice/s3secrets/run_s3.go:369-417 | runListSecretsCommand computes its specification |
| RunS3.ListEach | src/github.com/UKHomeOffice/s3secrets/run_s3.go:385-414 | ls's loop over the paths computes one listing per path, stopping at the first failed listing |
| RunS3.ListWithoutArguments | src/github.com/UKHomeOffice/s3secrets/run_s3.go:380-393 | without arguments ls lists the whole bucket once |
| RunS3.RemovePaths | src/github.com/UKHomeOffice/s3secrets/run_s3.go:354-363 | one removal per normalised path in order; success means every removal was accepted |
| RunS3.RunRemoveSecrets | src/github.com/UKHomeOffice/s3secrets/run_s3.go:346-366 | runRemoveSecretsCommand computes its specification |
| RunKms.EncryptedNameDecrypts | src/github.com/UKHomeOffice/s3secrets/run_kms.go:154-178 | decrypting the name encrypting produced is not skipped and gives back the original name |
| RunKms.DecryptedNameEncrypts | src/github.com/UKHomeOffice/s3secrets/run_kms.go:154-178 | encrypting the name decrypting produced gives back the encrypted name |
| RunKms.EmptySuffix | src/github.com/UKHomeOffice/s3secrets/run_kms.go:154-178 | with an empty suffix, encrypting skips every file and decrypting writes each file onto itself |
| RunKms.ProcessFile | src/github.com/UKHomeOffice/s3secrets/run_kms.go:152-193 | a skipped file changes nothing; the original is removed only after a successful write and only without no-delete or dry run; no other file changes |
| RunKms.FileList | src/github.com/UKHomeOffice/s3secrets/run_kms.go:134-146 | an argument stands for itself, or for a directory's non-directory entries; an unopenable one is an error |
| RunKms.RunKmsSpec | src/github.com/UKHomeOffice/s3secrets/run_kms.go:112-132 | encrypting needs a key id, then some file is needed, both before any file is touched |
| RunKms.ProcessFileList | src/github.com/UKHomeOffice/s3secrets/run_kms.go:150-195 | the inner loop computes the specification, skipping and stopping as it says |
| RunKms.RunKMSCommand | src/github.com/UKHomeOffice/s3secrets/run_kms.go:112-198 | runKMSCommand computes its specification |
| RunKms.ProcessFilesAppend | src/github.com/UKHomeOffice/s3secrets/run_kms.go:150-195 | the first failing file stops the command; later files are untouched |
| RunKms.DryRunKeepsFiles | src/github.com/UKHomeOffice/s3secrets/run_kms.go:181-193 | a dry run neither writes nor removes any file |
| RunKms.RemovesOnlyProcessed | src/github.com/UKHomeOffice/s3secrets/run_kms.go:189-193 | a removed file was one of the files, was not skipped, and neither no-delete nor dry run was set |
| RunKms.DirectoryArgument | src/github.com/UKHomeOffice/s3secrets/run_kms.go:141-146 | a directory argument stands for the files below it and not for itself |
| RunKms.TargetedAliases | src/github.com/UKHomeOffice/s3secrets/run_kms.go:103-107 | exactly the aliases with a target key id are shown |
| RunKms.ListKeyAliases | src/github.com/UKHomeOffice/s3secrets/run_kms.go:97-110 | a failed alias listing is an error showing nothing; otherwise the targeted aliases |
| Utils.GetPaths | utils.go:26-32 | no arguments give [""]; otherwise the arguments unchanged; never empty |
| Utils.IsDirectory | utils.go:35-42 | isDirectory fails exactly when stat fails, and is true exactly for a directory |
| Utils.IsFile | utils.go:45-49 | isFile negates isDirectory and passes its failure through, so it answers true on failure |
| Utils.RegularFiles | utils.go:61-68 | exactly the regular files a walk visits are kept |
| Utils.RegularFilesAppend | utils.go:61-68 | the regular files of a walk keep walk order |
| Utils.Expanded | utils.go:52-69 | a failed stat gives an error; a regular file stands for itself; a directory for its regular files in walk order |
| Utils.ExpandFiles | utils.go:52-69 | expandFiles, as its callback runs, computes the expansion, with an empty list on failure |
| Cmd.ListBucketKeys | cmd.go:126-146 | listBucketKeys returns exactly the listed objects whose key does not end in "/", in order, or the listing error |
| Cmd.BucketKeys | cmd.go:126-146 | the key listing fails exactly when S3's listing fails, and holds exactly the listed non-marker objects |
| Cmd.BucketFound | cmd.go:32-44 | hasBucket is true exactly when a listed bucket has the name; a failed listing is an error |
| Cmd.HasBucket | cmd.go:32-44 | the early-return search computes that answer |
| Cmd.KeyFoundMeans | cmd.go:151-164 | hasKey lists under Dir(key), fails exactly when that listing fails, and is true exactly on an exact match of a non-marker key |
| Cmd.HasKey | cmd.go:151-164 | the early-return search computes that answer and is false on error |
| Cmd.MarkerIsNoKey | cmd.go:151-164 | a key ending in "/" is never found |
| Cmd.SizeOfBucket | cmd.go:169-176 | the size is the number of non-marker keys under the empty prefix, and fails with the listing |
| Cmd.EmptyBucket | cmd.go:169-176 | a bucket has size 0 exactly when everything listed in it is a directory marker |
| Cmd.GetFile | cmd.go:71-87 | getFile returns the full body or an error, never both |
| Cmd.GetFileAndGetBlob | cmd.go:71-87 | getFile succeeds only where the first generation's getBlob does, and also fails on a body read error that getBlob ignores |
| Cmd.PutFile | cmd.go:104-121 | putFile uploads the file as read, for S3 to encrypt under the key id; a read failure issues nothing |
| ListCmd.DefaultListOptions | list.go:43-46 | recursive is on unless turned off |
| ListCmd.ShowKeys | list.go:74-92 | the inner loop shows the keys the predicate keeps, in listing order |
| ListCmd.ListFiles | list.go:57-97 | listFiles computes its specification: paths in argument order, the first listing error aborts |
| ListCmd.RecursiveShowsAll | list.go:74 | a recursive listing shows every listed key |
| ListCmd.NonRecursiveShowsDirect | list.go:74-76 | a non-recursive listing shows a key exactly when what follows the prefix has no "/" |
| ListCmd.NonRecursiveDirectoryWithoutSlash | list.go:74-76 | a path without a trailing "/" hides every key below it |
| PutCmd.KeyNameCases | put.go:91-97 | the key is the file name, its base name when flattening, or TrimRight(path,"/") + "/" + base with a single "/" at the join |
| PutCmd.PutOne | put.go:100-102 | one upload of the file's content under its key name; a refused upload is an error |
| PutCmd.PutFilesSpec | put.go:59-115 | flatten with a path is refused first; a missing bucket or no arguments uploads nothing |
| PutCmd.FlattenWithPathFirst | put.go:65-67 | that refusal does not depend on S3, the filesystem or the arguments |
| PutCmd.UploadFiles | put.go:84-112 | the inner loop computes the specification, stopping at the first failure |
| PutCmd.PutFiles | put.go:59-115 | putFiles computes its specification |
| PutCmd.PutListUploads | put.go:84-112 | the uploads are one per file, in order, under each file's key name, accepted up to the failure |
| GetCmd.DefaultGetOptions | get.go:50-77 | defaults: output ./secrets, filter ".*", flatten on, recursion and sync off |
| GetCmd.RecursionGuardVacuous | get.go:133-142 | the non-recursive guard rejects no key not ending in "/": acceptance is the filter match alone |
| GetCmd.ProcessFile | get.go:199-215 | a fetch failure creates and writes nothing; on success the file at the path holds exactly the fetched bytes |
| GetCmd.GetKey | get.go:136-171 | a key the filter rejects is untouched; without sync a failure ends the run; with sync it is reported, the key is reported retrieved as well, and the run goes on |
| GetCmd.Reported | get.go:153-171 | nothing reported yet leaves the rest of the outcome as it is |
| GetCmd.GetFilesSpec | get.go:88-194 | an invalid filter is an error before the output directory is made; a failed mkdir is an error before any listing; with sync each cycle sees its own poll of S3 and the filesystem |
| GetCmd.ProcessKeys | get.go:128-172 | the key loop computes the per-key specification |
| GetCmd.RunCycle | get.go:117-182 | one cycle: each path with one leading "/" dropped is listed; a listing failure ends the run |
| GetCmd.RunRounds | get.go:109-191 | the sync loop repeats the cycle, each against that round's answers, until one fails or the run is stopped |
| GetCmd.GetFiles | get.go:88-194 | getFiles computes its specification |
| GetCmd.GetKeysAppend | get.go:153-171 | without sync the keys after a failure are never processed |
| GetCmd.SyncNeverStops | get.go:153-171 | with sync no key stops the cycle, and every accepted key is reported retrieved |
| GetCmd.RecursionIrrelevant | get.go:140-142 | recursive and non-recursive cycles do the same on non-empty keys |
| GetCmd.ApplyThen | get.go:199-215 | applying two writes one after the other is applying their combination |
| GetCmd.ApplyTwice | get.go:199-215 | applying the same writes twice is applying them once |
| GetCmd.ApplyNothing | get.go:199-215 | no writes leave the disk as it is |
| GetCmd.ProcessFileIsEffect | get.go:199-215 | what processFile does to the disk depends only on S3 and the filesystem's answers, not on the disk |
| GetCmd.GetKeyIsEffect | get.go:136-171 | what a key does to the disk depends only on S3 and the filesystem's answers |
| GetCmd.GetKeysIsEffect | get.go:128-172 | the same for one listing |
| GetCmd.CycleIsEffect | get.go:117-182 | the same for a whole cycle |
| GetCmd.CycleIdempotent | get.go:117-182 | with no change cache, a second cycle rewrites the same files and reports the same |
| GetCmd.RoundsLikeOneCycle | get.go:109-191 | while S3 and the filesystem answer every round as in the first, syncing for any number of rounds leaves the disk as one cycle does, and fails exactly when it does |
| GetCmd.RoundsLastPoll | get.go:109-191 | a sync run that got through its earlier rounds leaves the disk as the last round, against the last poll's answers, left it |
| ObjectStore.Perform | src/github.com/UKHomeOffice/s3secrets/s3.go:134-176 | an accepted request takes effect on its own bucket only; a refused one changes nothing |
| ObjectStore.PerformAllAppend | buckets.go:145-164 | the effect of a trace is the effect of its parts in order |
| ObjectStore.Deletes | delete.go:61-76 | one removal request per key, in order |
| ObjectStore.DeletesRemove | delete.go:61-76 | removing keys one by one takes exactly the accepted ones out of their bucket |
| ObjectStore.AllDeletesRemove | buckets.go:145-158 | when every removal is accepted, every listed key is gone |
| BucketsCmd.ListBuckets | buckets.go:81-97 | one record per bucket, with its creation time, in listing order |
| BucketsCmd.Create | buckets.go:99-121 | an existing bucket is an error with nothing requested; otherwise exactly one create request |
| BucketsCmd.CreateBucketCmd | buckets.go:99-121 | createBucket computes that specification |
| BucketsCmd.CreateEffect | buckets.go:99-121 | a successful create leaves the new bucket empty and changes no other; a failed one changes nothing |
| BucketsCmd.KeyNames | buckets.go:145-158 | the names of the listed keys, in order |
| BucketsCmd.DeleteKeys | buckets.go:145-158 | one removal per key in listing order; the first refused removal stops the loop with its error |
| BucketsCmd.DeleteRequests | buckets.go:123-173 | an absent bucket is an error; a non-empty bucket without force requests nothing; the bucket is deleted only after every key removal was accepted; an empty bucket is deleted with no removal |
| BucketsCmd.SuccessfulDelete | buckets.go:145-164 | a delete that succeeds listed the bucket's keys, had every key removal accepted, and only then had the bucket deletion accepted |
| BucketsCmd.DeleteEffect | buckets.go:123-173 | a successful delete removes the bucket and changes no other; before that, the bucket held only the directory markers the key listing leaves out |
| BucketsCmd.RefusedRemovalKeepsBucket | buckets.go:145-164 | a refused key removal never leads to the bucket being deleted |
| BucketsCmd.DeleteBucketCmd | buckets.go:123-173 | deleteBucket computes its specification |
| BucketsCmd.RemoveKeys | buckets.go:145-158 | the removal loop computes DeleteKeys |
| DeleteCmd.Report | delete.go:61-76 | a path is reported removed exactly when its removal was accepted |
| DeleteCmd.DeleteFiles | delete.go:48-79 | no arguments is an error before the bucket check; a missing bucket removes nothing; otherwise every path is attempted, each reported, and the command succeeds |
| DeleteCmd.DeleteEffect | delete.go:48-79 | exactly the paths reported removed are gone from the bucket, whatever failed around them |
| DeleteCmd.DeleteFile | delete.go:48-79 | deleteFile, as its loop runs with continue, computes that specification |
| Cli.ExitCode | cli.go:116-121 | exit status 0 only when handleCommand returns, 1 otherwise |
| Cli.Missing | cli.go:138-159 | type s is missing iff not set and empty; type a iff not set and the slice is empty; other types never; scope g asks whether the global flag is set |
| Cli.CheckOption | cli.go:124-160 | a spec that does not split into three fields is an internal error (the recovered panic); otherwise it fails exactly when the option is missing |
| Cli.CheckOptions | cli.go:124-160 | the specs pass exactly when each passes; a failure is that of some spec |
| Cli.Handle | cli.go:114-174 | the required options, then the format, then the method; it returns nil only when all three succeed |
| Cli.HandleCommand | cli.go:114-174 | handleCommand, as its loop runs, computes that outcome |
| Cli.SpecFields | cli.go:125-128 | a spec of three colon-free fields reads back as those fields |
| Cli.RequiredOption | cli.go:138-159 | a command's required string option fails the command exactly when it is neither set nor non-empty |
| Cli.SecretKeyAloneIgnored | cli.go:191-197 | as written, the access-key-missing error is never returned, and a secret key alone falls through to the default credentials |
| Cli.CredentialsFor | cli.go:179-215 | corrected: no region is an error; static credentials iff both keys are given; half a pair is an error; otherwise a profile selects shared credentials, else the defaults |
| Cli.CredentialsAgree | cli.go:191-205 | the written and the corrected choice agree unless only a secret key is given |
| Cli.CliCommand.constructor | cli.go:179-215 | a command starts without a session |
| Cli.CliCommand.GetCredentials | cli.go:179-215 | as written (reading "secret-ket"): on success the command's session is the one CredentialsAsWritten chooses; on failure it is unchanged and the error is that choice's |
| Formatting.OneFormPerFormat | formatter.go:34-81 | every valid format writes exactly one of a record or a line; text is the only format without records |
| Formatting.Formatter.constructor | formatter.go:34-49 | a formatter keeps its format and starts with nothing written |
| Formatting.Formatter.Fields | formatter.go:51-72 | a "stamp" entry is added and every other entry kept; the record is written only for yml, yaml and json |
| Formatting.Formatter.Log | formatter.go:75-81 | the line is written only for text |
| Formatting.Formatter.Report | formatter.go:51-81 | fields followed by log writes exactly one entry for a valid format |
| Formatting.NewFormatter | formatter.go:34-49 | succeeds iff the format is yml, yaml, json or text, and keeps it unchanged |

## Left out

- **The clients.** AWS S3 and KMS clients, sessions and SDK calls are answers of `Environment.Cloud`, not modelled code. This covers the thin wrappers in `src/github.com/UKHomeOffice/s3secrets/kms.go`, `keys.go` and `cmd.go`'s `listS3Buckets`/`removeFile`, and `s3.go`'s `setBlob`/`removeObject` (a request the cloud accepts or refuses).
- **Client construction.** `cli.go` builds its clients at lines 209-211; the model keeps only the chosen session.
- **Regular expressions** are an oracle: whether a pattern compiles and whether it matches.
- **The command-line library.** Its flag lookups are the oracle `Cli.Context`. Flag declarations (the `new*Command` functions) are argument plumbing and are not modelled. So is `src/github.com/UKHomeOffice/s3secrets/config.go` with its `os.Exit`.
- **The handled method is represented only by its error.** `Cli.Handle` takes that error as the `failure` parameter. A panic inside the method is not modelled.
- **Concurrency and timing are not modelled.** get's goroutine, signal handling and sleep between sync rounds are left out. A signal may interrupt a sync run at any point; the model stops only between cycles, after one cycle per poll of S3 and the filesystem (`GetCmd.Poll`).
- **Text and encodings are not modelled.** This covers output formatting and colouring, JSON/YAML encoding and its failure, and the formatter's time stamp (a parameter). `fields` mutates the caller's map, and both formatter methods return the receiver; the model returns the stamped record instead.
- **Filesystem semantics.** Permissions, `MkdirAll` internals and `filepath.Walk` internals are out. A walk is an infallible sequence of entries, so the walk callbacks' error branches are unreachable. Reads come from the `Host` oracle rather than from files the command wrote earlier. Write errors after a successful open are not modelled. `GoStrings.Dir` does not perform `filepath.Clean`'s collapsing of "..", "." and repeated slashes.
- **Partial reads.** getBlob's single partial `Read` of the body is modelled as reading the whole body.
- **Excluded files.** `edit.go` runs an external editor on temporary files. `cat.go` is a thin fetch-and-print loop. `keys.go`'s listing repeats the nil-id filter already modelled by `RunKms.TargetedAliases`. `cmd.go`'s `getFileMetadata` is a bare S3 call.
- **The change cache.** `get.go:211` leaves it as a TODO, so no object is skipped as unchanged; nothing of a cache is modelled.
- BucketsCmd.DeleteBucketCmd: deleteBucket lists the keys twice, once through sizeOfBucket and once for the removals. The model uses one answer for both, since S3 answers a listing the same way within one command, so a failure of only the second listing is not modelled.
- LegacyMain.RunMain: the first generation's `main` calls listing and fetching functions with an older signature than `s3.go` provides. They are modelled as the `LegacyMain.Store` oracle.

## Findings

| source | as written | input that shows it | evidently intended | confidence | as-written member | corrected member |
|---|---|---|---|---|---|---|
| src/github.com/UKHomeOffice/s3secrets/run_s3.go:206-220 | the upload list of a directory argument starts with the directory path itself, then its files | put with the argument `dir` naming a directory: the first upload reads `dir` itself, the read fails, and the put stops before any file is uploaded | a directory stands for the files below it only, as `run_kms.go:141-146` does | not executed | RunS3.DirectoryPutAsWritten | RunS3.DirectoryPutCorrected |
| cli.go:191 | the static-credentials test reads the undeclared option "secret-ket", which is always "" | `--region r --secret-key s` without an access key: the static branch is skipped, the defaults are used, and the "access key missing" error at lines 195-197 is never returned | the test reads "secret-key", so a secret key alone is reported as missing its access key | not executed | Cli.SecretKeyAloneIgnored | Cli.CredentialsFor |
