# A verified model of AWE's data mover, caches and bundled containers

This project models, in Dafny 4.11, the parts of the AWE repository whose correctness is hardest to
see by reading, and proves what they promise:

- the persistent **hash-trie map**, the **UTF-8 codec** with its **incremental string decoder**, the
  **base64 codec**, the **least-recently-used queue** with the **memoiser** it bounds, and the **ordered
  Map polyfill**, which live minified in the two documentation bundles under `docs/API`;
- the **data mover** of `lib/cache/cache.go`, which walks a CWL value tree, uploads each File to a Shock
  store or downloads it to a directory, and rewrites the tree; and the **worker cache** beside it;
- the **authentication cache** as interleaved steps of concurrent calls, the **event-log analyser** with
  its **resampler**, and the **access lists**.

The source's own form is kept. Recursion and copy-on-write become functions; objects with fields become
classes; loops become loops with invariants. Every such class or loop is proved against a function on
values, and the theorems are about that function.

`dafny verify dfyconfig.toml` checks all of it.

## How the modules fit

| area | values and operations | proofs | objects and loops |
|---|---|---|---|
| hash trie | `Bits`, `HashTrie` | `HashTrieTables`, `HashTrieProof`, `HashTrieMap` | (the source is copy-on-write) |
| UTF-8 | `Utf8`, `StringDecoder` | `Utf8`, `StringDecoderProof` | `Utf8`, `StringDecoder.Decoder` |
| base64 | `Base64` | `Base64`, `Base64Bits` | `Base64` |
| LRU, memoiser | `LruQueue` | `LruQueue`, `LruRuns`, `Memoizer` | `LruQueue.Queue`, `Memoizer.Memo` |
| ordered Map | `LinkedTable` | `LinkedTableProof`, `LinkedTableRuns` | `LinkedMap.OrderedMap` |
| data mover | `GoPath`, `GoPathRelative`, `DataMover` | `DataMoverUpload`, `DataMoverDownload`, `DataMoverNames`, `DataMoverRoundTrip`, `DataMoverRepeat`, `DataMoverPaths`, `DataMoverDisk`, `DataMoverScope`, `DataMoverWhole`, `DataMoverAgain`, `DataMoverGlued`, `DataMoverSuccess`, `DataMoverFetch`, `DataMoverFields`, `DataMoverMirror` | `DataMoverObjects` |
| worker cache | `WorkerCache` | `WorkerCache` | `WorkerCache.Worker` |
| authentication | `Auth` | `Auth` | `AuthCache.Cache` |
| log analyser | `LogAnalyzer`, `Resampler` | `LogAnalyzer`, `LogRuns`, `Resampler` | `LogParser.Parser`, `Resampler` |
| access lists | `Acl` | `Acl` | `Acl` |
| shared | `Wrappers` | | |

## Conventions and assumptions

- Keys of the trie have abstract equality and an abstract 32-bit hash that is a function of the key. Words
  are naturals below 2^32, and masks and shifts are defined on them arithmetically in `Bits`.
- A tree of CWL values is a datatype; the disk is a map from places (the names from the root down) to
  content, plus a set of directories; the web is a map from URLs to content. What cannot be known
  beforehand is an environment of functions: ids that posts return, the fate of each fetch, names of
  temporary directories, the order of a directory's entries, the path in a `file:` URL. A post is assumed to
  return an id that holds the posted content without disturbing other ids, a fetch to write only its target,
  and a temporary directory to get a name that starts with `input_` and is not in use. There are no symbolic
  links on the disk.
- Go's `path` functions are modelled on strings, from their documentation.
- Time is a count of nanoseconds read from one clock that never goes back. In the authentication model each
  critical section of the RW lock is one step.
- Two guards of the log analyser read a job id left over from an earlier event (`utils/log_analyzer.py:231`,
  `utils/log_analyzer.py:395`). The model uses the event's own job id. A missing dictionary key, which stops
  the analyser, is an explicit outcome.

## Where the code falls short of a natural expectation

Each is kept as the code has it, shown at an input, and delimited exactly:

- a user accepted from the authentication cache may be older than an hour since it was produced, because
  expiry counts from storing: never exactly if answers are stored at once (`Auth.YoungIffPrompt`);
- a refreshed entry may be deleted by another call (`Auth.RefreshMayBeLost`): exactly if in the state at hand
  some call is about to delete under that header, or has read an entry there that expires sooner
  (`Auth.EntryStaysIff`);
- a part uploaded by a workunit of rank above 0 is cached under the whole node's id
  (`WorkerCache.PartSpoilsCache`), and a file that cannot be moved to the cache may leave an older one there:
  cache and store agree all along a run exactly if every push is safe in its state (`WorkerCache.AgreesIffSafe`);
- below the base path `.` a leading dot of the first name is lost from a downloaded File's location
  (`GoPathRelative.RejoinIff`);
- a directory on disk is looked for at the current path followed by its own path, even if that is absolute,
  and its entries at the root if the current path is empty. So `""` with a relative path fails
  (`DataMoverWhole.EmptyCurrentFails`), or succeeds with the content of a file at the root instead of the
  directory's own (`DataMoverWhole.EmptyCurrentTakesOther`), and an absolute path under a current path fails
  (`DataMoverWhole.AbsolutePathFails`); `DataMoverPaths.WorksIff` says exactly which plain paths work under
  which current paths, and `DataMoverPaths.EntryResolvesIff` does for one level of any path;
- a second upload looks for a directory that has no entries at the current path followed by its full path.
  So the upload of a directory that holds an empty one may succeed and then fail when repeated
  (`DataMoverGlued.EmptyDirectoryFails`), but not under the current paths `.` and `/`, nor under `""` where that
  reaches the directory (`DataMoverGlued.UploadsRepeat`), nor if only the directory itself is empty. The exact
  condition is `DataMoverAgain.SecondUploadIff` for every tree, and
  `DataMoverGlued.DirectoryTwiceIff` in terms of places on the disk;
- a file name that leads up and down again, such as `../f`, may make a download overwrite a file; exactly those
  names may (`DataMoverNames.NamesThatKeepIff`), in trees as well (`DataMoverNames.TreesKeep`);
- a Directory with the name of a File downloaded before it to the same place cannot be made
  (`DataMoverFetch.SharedNameFails`); where no Directory has the name of a File, a download succeeds exactly if
  everything is on the web and no file was in the way beforehand (`DataMoverFetch.DownloadSucceedsIff`);
- a Directory with a location but neither basename nor path is downloaded into the directory at hand, and its
  location becomes `.` (`DataMoverFields.NamelessFolder`, `DataMoverFields.DownloadRewrites`);
- of two lead surrogates that end a string, the encoder loses the second (`Utf8.LoneSurrogates`);
- a File that was remote already and has the path `file://` keeps that path (`DataMoverRepeat.RemoteKeepsPath`,
  `DataMoverRepeat.UploadShips`);
- removing a right takes only the first occurrence (`Acl.RemovedIff`);
- a negative total would bring the work count below the number of active workunits
  (`LogAnalyzer.TotalsMustNotBeNegative`);
- a frozen object used as a Map key may find the entry of a primitive it is coerced to
  (`LinkedTableRuns.FrozenKeyFindsPrimitive`, `LinkedTableRuns.FrozenKeyFoundIff`).

## Model

| member | source | states |
|---|---|---|
| `Bits.PopCountCounts` | docs/API/swagger-ui-standalone-preset.js:1 | the parallel population count of a 32-bit word, with its masks, shifts and byte sums, is the number of bits set |
| `Bits.RankIsBelow` | docs/API/swagger-ui-standalone-preset.js:1 | the array index of a slot, the population count of the bitmap below its bit, is the number of occupied slots below it |
| `HashTrie.DifferentHashesPart` | docs/API/swagger-ui-standalone-preset.js:1 | two different 32-bit hashes never share seven five-bit digits, so merging ends with a shift of at most 30 |
| `HashTrieTables.KeysSpell` | docs/API/swagger-ui-standalone-preset.js:1 | every key below a node has a hash that spells the path to that node |
| `HashTrieTables.TableFind` | docs/API/swagger-ui-standalone-preset.js:1 | of all the children, only the one in the slot of a key's digit can hold the key |
| `HashTrieTables.TableUpdate` | docs/API/swagger-ui-standalone-preset.js:1 | replacing that one child by an updated one updates the contents of the whole table |
| `HashTrieProof.MergeCorrect` | docs/API/swagger-ui-standalone-preset.js:1 | merging a leaf with an entry gives a well-shaped node with the contents of both |
| `HashTrieProof.RebuildBitmapCorrect` | docs/API/swagger-ui-standalone-preset.js:1 | a bitmap node rebuilt around a changed child, growing into a full node, collapsing into its last leaf or neither, is well shaped and has the table's contents |
| `HashTrieProof.RebuildFullCorrect` | docs/API/swagger-ui-standalone-preset.js:1 | a full node rebuilt around a changed child, packed into a bitmap node below eight children or not, is well shaped and has the table's contents |
| `HashTrieProof.UpdateCorrect` | docs/API/swagger-ui-standalone-preset.js:1 | updating any node is the plain map's update, keeps the shape invariant, and sets the "altered" and "size changed" flags exactly when they are due |
| `HashTrieProof.GetCorrect` | docs/API/swagger-ui-standalone-preset.js:1 | lookup by hash digits finds what the contents hold under the key, and nothing else |
| `HashTrieMap.NotEmpty` | docs/API/swagger-ui-standalone-preset.js:1 | no node of a trie is without entries |
| `HashTrieMap.InsertAll` | docs/API/swagger-ui-standalone-preset.js:1 | the array form grown beyond eight entries becomes a well-shaped trie |
| `HashTrieMap.InsertAllCorrect` | docs/API/swagger-ui-standalone-preset.js:1 | the trie made from the array form has all of its entries and the new one |
| `HashTrieMap.ArrayMapCorrect` | docs/API/swagger-ui-standalone-preset.js:1 | updating the array form is the plain map's update, with exact flags, and stays within eight distinct keys or turns into a well-shaped trie |
| `HashTrieMap.UpdateMapCorrect` | docs/API/swagger-ui-standalone-preset.js:1 | set and remove are the same operations on a finite map, keep the invariant and the size, and return the map itself when nothing changes |
| `HashTrieMap.Run` | docs/API/swagger-ui-standalone-preset.js:1 | every map reached by sets and removes satisfies the invariant |
| `HashTrieMap.RunRefinesPlain` | docs/API/swagger-ui-standalone-preset.js:1 | after every run of sets and removes, across all node kinds, lookup of any key answers what the finite map holds and size is its number of keys |
| `Utf8.Push` | docs/API/swagger-ui-standalone-preset.js:13 | a decoded code point is pushed as its UTF-16 form |
| `Utf8.Decode` | docs/API/swagger-ui-standalone-preset.js:13 | the decoding loop computes the decoding of the slice, one replacement for each byte that starts no character |
| `Utf8.Emit` | docs/API/swagger-ui-standalone-preset.js:13 | the bytes of section 3 of RFC 3629 for a code point, if the budget still covers them, and the budget left |
| `Utf8.Encode` | docs/API/swagger-ui-standalone-preset.js:13 | the encoding loop, with its pending surrogate and byte limit, emits the encoding of the code points read as far as the limit covers them |
| `Utf8.DecodeFirst` | docs/API/swagger-ui-standalone-preset.js:13 | the first character of an encoding followed by anything is recognised, with its width |
| `Utf8.FirstScalarIff` | docs/API/swagger-ui-standalone-preset.js:13 | for all bytes: a character is read exactly where its encoding stands, so no overlong form, surrogate or number beyond the last code point is taken for one |
| `Utf8.DecodedIs` | docs/API/swagger-ui-standalone-preset.js:13 | decoding any bytes: the character whose encoding comes first and then the rest, or a replacement for one byte and then the rest |
| `Utf8.DecodeAfterEncode` | docs/API/swagger-ui-standalone-preset.js:13 | decoding an encoding followed by anything gives the string and then the decoding of the rest |
| `Utf8.RepairedWellFormed` | docs/API/swagger-ui-standalone-preset.js:13 | a well-formed UTF-16 string is read as exactly its code points |
| `Utf8.LoneSurrogates` | docs/API/swagger-ui-standalone-preset.js:13 | a surrogate out of a pair, after any characters, is read as one replacement, except that of two lead surrogates ending the string the second is lost |
| `Utf8.LimitedIsPrefix` | docs/API/swagger-ui-standalone-preset.js:13 | under a limit the output encodes the longest prefix of whole code points that fits |
| `Utf8.UnlimitedIsAll` | docs/API/swagger-ui-standalone-preset.js:13 | without a limit the output encodes everything |
| `Utf8.RoundTrip` | docs/API/swagger-ui-standalone-preset.js:13 | decode after encode is the identity on every well-formed string |
| `StringDecoder.Decoder.CopyIn` | docs/API/swagger-ui-standalone-preset.js:13 | bytes copied into the four-byte buffer replace those at their place and no others |
| `StringDecoder.Decoder.WriteText` | docs/API/swagger-ui-standalone-preset.js:13 | whole characters of a chunk come out and a cut one is kept |
| `StringDecoder.Decoder.Fill` | docs/API/swagger-ui-standalone-preset.js:13 | a waiting character is completed, given up, or goes on waiting |
| `StringDecoder.Decoder.WriteChunk` | docs/API/swagger-ui-standalone-preset.js:13 | one write, on the buffer in place, is the step on decoder states that the chunking theorem is about |
| `StringDecoder.Decoder.Finish` | docs/API/swagger-ui-standalone-preset.js:13 | the end adds one replacement exactly if a character never got completed |
| `StringDecoderProof.IncompleteEnd` | docs/API/swagger-ui-standalone-preset.js:13 | the backward scan finds a character cut after any of its bytes, with the number of bytes missing |
| `StringDecoderProof.TextStep` | docs/API/swagger-ui-standalone-preset.js:13 | from a clean state, whole characters come out and exactly the cut bytes are held |
| `StringDecoderProof.WriteStep` | docs/API/swagger-ui-standalone-preset.js:13 | with any bytes waiting, a chunk brings out exactly the characters it completes |
| `StringDecoderProof.CutAnywhere` | docs/API/swagger-ui-standalone-preset.js:13 | any prefix of an encoding is whole characters and a cut-off one |
| `StringDecoderProof.ChunkingDoesNotMatter` | docs/API/swagger-ui-standalone-preset.js:13 | for valid UTF-8 cut into chunks in any way, all writes and the end together give the decoding of the whole |
| `StringDecoderProof.CutOffIsReplaced` | docs/API/swagger-ui-standalone-preset.js:13 | for valid UTF-8 cut off inside a character, in chunks of any kind, the output is the whole characters and one replacement |
| `StringDecoderProof.IncompleteIff` | docs/API/swagger-ui-standalone-preset.js:13 | for all bytes: what is held back at the end of a chunk is exactly a first byte with continuing bytes, fewer than it announces |
| `StringDecoderProof.BrokenOff` | docs/API/swagger-ui-standalone-preset.js:13 | for all bytes: a waiting character that is not continued counts for one replacement, and reading starts anew at the byte that broke it off |
| `StringDecoderProof.Continues` | docs/API/swagger-ui-standalone-preset.js:13 | for all bytes: one that is continued to its end is decoded, well formed or not, and reading starts anew behind it |
| `Base64.EncodeChunk` | docs/API/swagger-ui-standalone-preset.js:21 | the loop over triples of a block computes the encoding of the block |
| `Base64.FromByteArray` | docs/API/swagger-ui-standalone-preset.js:21 | blocks of 16383 bytes and one or two last bytes with padding together give the encoding of all bytes |
| `Base64.DecodeGroups` | docs/API/swagger-ui-standalone-preset.js:21 | the loop over groups of four letters writes their bytes at the front of the buffer and nothing behind them |
| `Base64.DecodePadded` | docs/API/swagger-ui-standalone-preset.js:21 | the padded group's bytes are written behind them |
| `Base64.SizeIs` | docs/API/swagger-ui-standalone-preset.js:21 | the buffer size told by the padding is the number of bytes written for every string, misplaced padding included, except that padding at the start makes it negative |
| `Base64.ToByteArray` | docs/API/swagger-ui-standalone-preset.js:21 | the decoder fails exactly on a wrong length or leading padding, and else fills the buffer with the decoding |
| `Base64.RoundTrip` | docs/API/swagger-ui-standalone-preset.js:21 | decode after encode is the identity on byte sequences of every length |
| `Base64Bits.EncodedIsRfc` | docs/API/swagger-ui-standalone-preset.js:21 | the encoding by triples is the one section 4 of RFC 4648 defines on the stream of bits, with the alphabet of its table 1, zero fill and padding |
| `Base64Bits.LetterIsSymbol` | docs/API/swagger-ui-standalone-preset.js:21 | the letters are those of table 1 in section 4 of RFC 4648 |
| `Base64Bits.CodeReads` | docs/API/swagger-ui-standalone-preset.js:21 | reading a character of that table or of table 2 in section 5 gives its position, any other zero |
| `Base64Bits.DecodedIsRfc` | docs/API/swagger-ui-standalone-preset.js:21 | the decoding by groups is that of the stream of bits of the letters before the padding, in either alphabet, bits left over dropped |
| `LruQueue.Queue.Advance` | docs/API/swagger-ui-standalone-preset.js:21 | the loop that moves the base index ends, at the smallest live index |
| `LruQueue.Queue.Delete` | docs/API/swagger-ui-standalone-preset.js:21 | deleting takes the id out of the recency list and keeps the tables inverse |
| `LruQueue.Queue.Hit` | docs/API/swagger-ui-standalone-preset.js:21 | a hit moves the id to the recent end, evicts exactly the oldest id when there is one too many, and keeps size within any positive limit |
| `LruQueue.Queue.DropOldest` | docs/API/swagger-ui-standalone-preset.js:21 | what the base index points at is the head of the recency list |
| `LruQueue.Queue.Clear` | docs/API/swagger-ui-standalone-preset.js:21 | clearing empties both tables |
| `LruQueue.OrderFacts` | docs/API/swagger-ui-standalone-preset.js:21 | the list the tables stand for names each live id once, and no other |
| `LruRuns.RunsKeepOrder` | docs/API/swagger-ui-standalone-preset.js:21 | on every run of hits, deletions and clears the ids are listed by their last hit, never more than the limit |
| `LruRuns.EvictedIsOldest` | docs/API/swagger-ui-standalone-preset.js:21 | a hit evicts exactly when a new id meets a full queue, and what goes was hit longer ago than everything that stays |
| `LruRuns.HitsAreRecent` | docs/API/swagger-ui-standalone-preset.js:21 | after any row of hits the queue lists the last different ids, as many as the limit, by their last hit |
| `Memoizer.Memo.Delete` | docs/API/swagger-ui-standalone-preset.js:21 | a deletion drops the result and its place in the queue, also when the queue itself asked for it |
| `Memoizer.Memo.Touched` | docs/API/swagger-ui-standalone-preset.js:21 | after a get or set event the queue's order is that of a hit on the key, results and queue are on the same keys, the touched result is kept, and no other result changes |
| `Memoizer.Memo.Invoke` | docs/API/swagger-ui-standalone-preset.js:21 | a call, with any nested calls inside it, returns what the function returns, fails only when a key is called inside its own evaluation, and leaves the results of exactly the queue's keys, at most `max`: those after a hit on each key touched; for a call without inner calls that is its key moved to the recent end, and the oldest dropped if there is one too many |
| `Memoizer.Memo.InvokeAll` | docs/API/swagger-ui-standalone-preset.js:21 | calls in a row touch the keys that the theorems below are about, keep results and queue on the same keys and add no key but their own |
| `Memoizer.HeldAreRecent` | docs/API/swagger-ui-standalone-preset.js:21 | after any calls without inner calls, the keys held are the last `max` different keys called |
| `Memoizer.HeldAreTouched` | docs/API/swagger-ui-standalone-preset.js:21 | after any calls, inner ones included, from any history, they are the last `max` different keys touched |
| `LinkedTableProof.AppendOk` | docs/API/swagger-ui.js:8 | a new entry keeps index, list and size in agreement and comes last |
| `LinkedTableProof.RemoveOk` | docs/API/swagger-ui.js:8 | taking an entry out keeps them in agreement, and removed entries still lead back to the live ones before them |
| `LinkedTableProof.ClearOk` | docs/API/swagger-ui.js:8 | clearing keeps them in agreement, and nothing is left |
| `LinkedTable.Back` | docs/API/swagger-ui.js:8 | from a removed entry the links lead to the last live entry before it, however many were removed |
| `LinkedTable.Next` | docs/API/swagger-ui.js:8 | an iteration goes on at the first live entry after the one it stands at, removed or not |
| `LinkedTableRuns.StepCorrect` | docs/API/swagger-ui.js:8 | set, delete and clear are those operations on an ordered list of pairs, and entries never move or come back to life |
| `LinkedTableRuns.RunRefinesList` | docs/API/swagger-ui.js:8 | on every run the chain of entries is the list of pairs and size its length |
| `LinkedTableRuns.IterateVisitsSurvivors` | docs/API/swagger-ui.js:8 | whatever the callback adds, deletes or clears, forEach goes forward in insertion order, visits no entry twice, and visits every entry that survives |
| `LinkedTableRuns.FrozenKeyFoundIff` | docs/API/swagger-ui.js:8 | a key that cannot be tagged finds its own entry or none exactly if no live primitive it is coerced to comes before that entry |
| `LinkedTableRuns.FrozenKeyFindsPrimitive` | docs/API/swagger-ui.js:8 | an object stored after a primitive it equals overwrites that primitive's value |
| `LinkedMap.OrderedMap.GetEntry` | docs/API/swagger-ui.js:8 | lookup through the index, or along the chain for a frozen key, finds the entry of the table |
| `LinkedMap.OrderedMap.FindAlong` | docs/API/swagger-ui.js:8 | the loop along the chain finds the first entry that equals the key |
| `LinkedMap.OrderedMap.Def` | docs/API/swagger-ui.js:8 | setting a key changes its entry's value, or links one new entry, and the heap mirrors the table again |
| `LinkedMap.OrderedMap.Delete` | docs/API/swagger-ui.js:8 | deleting marks and unlinks the entry, tells whether there was one, and the heap mirrors the table again |
| `LinkedMap.OrderedMap.Clear` | docs/API/swagger-ui.js:8 | the loop that marks entries and cuts them loose clears the table |
| `LinkedMap.OrderedMap.SkipBack` | docs/API/swagger-ui.js:8 | the loop back over removed entries ends at the live one, or at the start |
| `LinkedMap.OrderedMap.IteratorNext` | docs/API/swagger-ui.js:8 | an iterator goes on from its last entry even if that was removed since |
| `LinkedMap.OrderedMap.ForEach` | docs/API/swagger-ui.js:8 | the loop over heap entries, with a callback that changes the map, visits exactly the entries of the iteration that the survivors theorem is about |
| `GoPath.ParseRender` | lib/cache/cache.go:376-376 | a path in shortest form reads back as it was written |
| `GoPath.ParseJoin` | lib/cache/cache.go:376-376 | a plain name joined to a path is one more part of it |
| `GoPathRelative.RejoinIff` | lib/cache/cache.go:427-429 | what is left of a path below the base, joined to the base again, is that path, exactly unless the base is `.` and the first name starts with a dot |
| `GoPathRelative.RejoinAbsolute` | lib/cache/cache.go:427-429 | below an absolute base nothing is lost |
| `DataMoverUpload.UploadFileCarries` | lib/cache/cache.go:154-334 | an uploaded File is remote, its URL holds the content it stood for, it keeps its name, nothing on disk or on the web is lost, and it is counted unless it was remote |
| `DataMoverUpload.UploadCarries` | lib/cache/cache.go:549-796 | uploading any tree of listed directories keeps its shape and makes every File remote with the content it had |
| `DataMoverFields.LiteralIsPosted` | lib/cache/cache.go:276-304 | literal contents are what is posted, under the File's basename or else its id, whatever its path and location; the File is then remote with empty path and contents, and counted |
| `DataMoverFields.PathIsPosted` | lib/cache/cache.go:166-265 | without contents a path, with or without `file://`, decides, whatever the location: the file there, below the current path if relative, is posted under the basename or else the last part of the path; it fails without changing anything if no file is there |
| `DataMoverFields.LocationIsPosted` | lib/cache/cache.go:177-215 | without either the location decides by its scheme: a path or `file://` path is posted likewise, http, https and ftp are left alone at count 0, and any other scheme or no location fails |
| `DataMoverFields.BaseIsLast` | lib/cache/cache.go:239-251 | the last part of a path that ends in a plain name is that name |
| `DataMoverFields.JoinKeepsLast` | lib/cache/cache.go:217-219 | also when the path is joined to the current path |
| `DataMoverFields.NodeUrlIs` | lib/cache/cache.go:306-314 | the location of a posted File is the host, its path to the API, `node`, the id and `?download` |
| `DataMoverMirror.UploadKeepsShape` | lib/cache/cache.go:549-875 | an upload keeps the tree, its scalars, the keys of its records and all fields of listed Directories; a Directory without a listing keeps name and location and has the path it was read from, that of its location if it had none; each File is what uploading it alone gives |
| `DataMoverMirror.DirectoryMirrors` | lib/cache/cache.go:438-545 | the listing of a directory on disk mirrors it level by level: a Directory or File for each entry in order, with its name, no location or content of its own, and its file's content on the web; no listing for no entries |
| `DataMoverRepeat.UploadShips` | lib/cache/cache.go:304-333 | for every tree, directories on disk included, the count is the number of Files less those that were remote, all are remote after, and all have empty contents and path exactly if no File that was remote came with a path |
| `DataMoverRepeat.DirectoryShips` | lib/cache/cache.go:438-545 | a directory on disk, with all below it, becomes a listing of remote Files, each counted once |
| `DataMoverRepeat.UploadSettled` | lib/cache/cache.go:182-201 | a tree of listed directories and remote Files is left as it is, with count 0 and no change to the world |
| `DataMoverRepeat.ListedIffPopulated` | lib/cache/cache.go:483-545 | every directory comes out listed exactly if none on disk, at any depth, is without entries other than checksum files |
| `DataMoverDownload.FetchKeeps` | lib/cache/cache.go:421-425 | a fetch to a free place changes no other file, whether it succeeds, breaks off or fails |
| `DataMoverDownload.TempDirFacts` | lib/cache/cache.go:384-391 | the fresh directory lies under the base path and was not there before |
| `DataMoverDownload.TargetFacts` | lib/cache/cache.go:376-395 | the path chosen for a download is free, and its path from the base joins back to it |
| `DataMoverDownload.DownloadFileLands` | lib/cache/cache.go:337-435 | a downloaded File is at a place that was free, which its location joined to the base path names, with the content its URL held; no file that was there changes, even on failure |
| `DataMoverDownload.DownloadLands` | lib/cache/cache.go:633-697 | for any tree with plain names under an absolute base path: no existing file changes even on failure, all Files land at pairwise different new places named by their locations, each with the content its URL held, and each is counted |
| `DataMoverDownload.DownloadDirLands` | lib/cache/cache.go:736-796 | the same for a Directory, with its directory made and its listing inside it |
| `DataMoverFields.FileRewrites` | lib/cache/cache.go:337-435 | a downloaded File keeps its basename, or gets the last part of its URL before the query; id, path and contents stay |
| `DataMoverFields.DownloadRewrites` | lib/cache/cache.go:549-796 | for every tree and all names: the same tree, each File so rewritten, and each Directory with its basename, an empty path, and for a location its basename or else the last part of its path, which names a directory on the disk inside the one it was downloaded to; an empty location stays empty |
| `DataMoverFields.NamelessFolder` | lib/cache/cache.go:755-765 | a Directory with neither basename nor path goes by the name `.` |
| `DataMoverRoundTrip.UrlName` | lib/cache/cache.go:350-362 | a File without a name is downloaded under its node's id |
| `DataMoverRoundTrip.UploadThenDownload` | lib/cache/cache.go:549-796 | upload from one disk and download to another at any later time gives each File of any tree of Files, Arrays, Records and listed Directories the content it had, at its new path |
| `DataMoverRepeat.UploadTwice` | lib/cache/cache.go:645-697 | what a tree without bare directories on disk became can be uploaded again in any world, its disk gone or changed: count 0, nothing changes |
| `DataMoverRepeat.RemoteKeepsPath` | lib/cache/cache.go:170-201 | a remote File with the path `file://` is returned with that path |
| `DataMoverAgain.UnlistedIffBare` | lib/cache/cache.go:463-545 | a directory comes out without a listing, at count 0 and with the world unchanged, exactly if it is there and has no entries but checksum files |
| `DataMoverAgain.StillIff` | lib/cache/cache.go:549-875 | a tree of remote Files is returned as it is, count 0, world unchanged, exactly if each directory without a listing is bare where the upload looks for it |
| `DataMoverAgain.SecondUploadIff` | lib/cache/cache.go:499-516 | for every tree and current path, uploading the result again with the same disk returns 0 and changes nothing exactly if every bare directory below an unlisted one is bare also where its full path, joined to the current path once more, leads |
| `DataMoverGlued.DirectoryTwiceIff` | lib/cache/cache.go:499-516 | for a directory on disk, in places: exactly if every bare directory strictly below it is bare also at the current place followed by its path |
| `DataMoverGlued.GluedUnderAbsolute` | lib/cache/cache.go:443-443 | under an absolute current path that is the current place followed by the place of the directory |
| `DataMoverGlued.UploadsRepeat` | lib/cache/cache.go:443-443 | under the current paths `.` and `/`, and under the empty one where it reaches the directory, uploading what a directory on disk became returns 0 and changes nothing |
| `DataMoverGlued.EmptyDirectoryFails` | lib/cache/cache.go:499-516 | an upload of a directory that holds an empty one: done with count 0 the first time, failed the second time if the glued place is no directory |
| `DataMoverPaths.LocateIs` | lib/cache/cache.go:443-446 | where a path leads depends on its shortest form only |
| `DataMoverPaths.AnchoredEntry` | lib/cache/cache.go:446-446 | a path below the current path, relative or absolute, survives being trimmed by it and joined to it again |
| `DataMoverPaths.EntryResolvesIff` | lib/cache/cache.go:493-510 | for every current path in shortest form or empty and every directory path: an entry that is a directory is looked for at its own place exactly if its directory is at or below the current path, or leads to the same place when joined to it once more |
| `DataMoverPaths.FileResolvesIff` | lib/cache/cache.go:217-219 | an entry that is a file is found also if its path is absolute |
| `DataMoverPaths.WorksIff` | lib/cache/cache.go:438-510 | a directory given by plain names is found, and so is every directory in it, exactly if an absolute path meets no current path or one at the root, and a relative path meets some current path, or none with the working directory at the root |
| `DataMoverPaths.ReachesNext` | lib/cache/cache.go:493-533 | what is reached on one level is reached on the next, the current path with its slash and the trimmed path taking the place of the first two |
| `DataMoverDisk.FileShown` | lib/cache/cache.go:521-533 | the File made for an entry is posted with the content of the file at that entry's place |
| `DataMoverDisk.DirectoryShown` | lib/cache/cache.go:438-545 | under any current path that reaches the directory, its listing has the files that a walk over places meets, at any depth, with names, contents and order |
| `DataMoverScope.BelowIsAll` | lib/cache/cache.go:463-490 | if each directory lists what is in it once, that walk meets exactly the files of the disk below the place that no checksum name hides, each once and with its content |
| `DataMoverScope.DepthIsEnough` | lib/cache/cache.go:509-509 | beyond the longest path of a directory the depth of the recursion makes no difference to the upload |
| `DataMoverWhole.LocatesIff` | lib/cache/cache.go:438-510 | for plain paths the condition of the theorems below is the one that `WorksIff` gives |
| `DataMoverWhole.UploadArrives` | lib/cache/cache.go:549-875 | uploading any tree, directories on disk included, under any current path that finds them, brings the content of each of its Files to the web under a name that can be downloaded |
| `DataMoverWhole.UploadThenDownloadAny` | lib/cache/cache.go:549-875 | upload then download of any such tree gives every File, and every file of such a directory, its content at its new path |
| `DataMoverWhole.DirectoryThereAndBack` | lib/cache/cache.go:549-875 | for a directory on disk the downloaded Files are exactly the files that lay below it, each once |
| `DataMoverWhole.UploadDepthIsEnough` | lib/cache/cache.go:549-875 | beyond the longest path of a directory the depth makes no difference to any tree |
| `DataMoverWhole.EmptyCurrentFails` | lib/cache/cache.go:446-446 | with the empty current path a relative directory is found, its file looked for at the root, and the upload fails if there is none |
| `DataMoverWhole.EmptyCurrentTakesOther` | lib/cache/cache.go:446-446 | if there is one, the upload succeeds, and the File named after the directory's entry has the content of the file at the root |
| `DataMoverWhole.AbsolutePathFails` | lib/cache/cache.go:443-443 | an absolute directory path under a current path is looked for below it, and the upload fails |
| `DataMoverNames.OtherNamesKeep` | lib/cache/cache.go:376-395 | whatever the name, the path and the answers: a download changes no file that was there, unless the name leads up and down again |
| `DataMoverNames.ClimbingNameOverwrites` | lib/cache/cache.go:384-391 | for each name that does and any base path: a disk, a free temporary name starting with `input_` and a path for which the download overwrites a file through the fresh directory |
| `DataMoverNames.NamesThatKeepIff` | lib/cache/cache.go:376-395 | exactly those names can |
| `DataMoverNames.TreesKeep` | lib/cache/cache.go:549-796 | downloading a tree in which no File's name climbs changes no file that was there, even on failure, whatever the names of its Directories, the paths and the answers |
| `DataMoverSuccess.FileSucceedsIff` | lib/cache/cache.go:154-334 | once posts succeed, a File is uploaded exactly if it is a literal, remote, or a file on the disk where its path leads |
| `DataMoverSuccess.DirectorySucceeds` | lib/cache/cache.go:438-545 | a directory that the current path reaches is uploaded with everything below it exactly if it is on the disk |
| `DataMoverSuccess.UploadSucceedsIff` | lib/cache/cache.go:549-875 | a tree whose directories are reached is uploaded exactly if each File is a literal, remote or on the disk, and each directory without a listing is on the disk, all as of before the upload |
| `DataMoverFetch.TargetIsChosen` | lib/cache/cache.go:376-395 | the path to download to is always found: the name itself if free, else the name in a new directory |
| `DataMoverFetch.DownloadFileSucceedsIff` | lib/cache/cache.go:337-435 | once fetches and temporary directories succeed, a File is downloaded exactly if it is on the web, no literal, and no file is at or above the directory; then its only new file is below that directory under its name |
| `DataMoverFetch.DownloadSucceedsIff` | lib/cache/cache.go:549-796 | a tree in which no Directory has the name of a File is downloaded exactly if, on the disk and web beforehand, every File is on the web, no file is at or above a directory to be made or written to, and each unlisted Directory has a location or a path |
| `DataMoverFetch.SharedNameFails` | lib/cache/cache.go:754-777 | a File and then a Directory of the same name in one directory, where that name was free: the download fails |
| `DataMoverObjects.FileObject.Upload` | lib/cache/cache.go:154-334 | the statement-by-statement upload of a File object, with its scheme switch and early returns, leaves the fields and the world that the upload of its value gives |
| `DataMoverObjects.FileObject.Download` | lib/cache/cache.go:337-435 | the same for the download of a File object |
| `DataMoverObjects.UploadNode` | lib/cache/cache.go:549-796 | uploading a tree of objects in place gives the uploaded value, count and world; only the tree's own objects change |
| `DataMoverObjects.UploadNodes` | lib/cache/cache.go:698-720 | the loop over items, adding up counts and stopping at the first error, does it for all of them |
| `DataMoverObjects.UploadFolder` | lib/cache/cache.go:438-545 | the loop over the entries of a directory builds its listing from new objects |
| `DataMoverObjects.UploadFound` | lib/cache/cache.go:500-538 | an entry becomes a new Directory or a new, uploaded File named after it |
| `DataMoverObjects.DownloadNode` | lib/cache/cache.go:549-796 | downloading a tree of objects in place gives the downloaded value, count and world |
| `DataMoverObjects.DownloadNodes` | lib/cache/cache.go:698-720 | the loop over items does it for all of them |
| `WorkerCache.CachePathInjective` | lib/cache/cache.go:31-42 | two ids of any length never share a cache path |
| `WorkerCache.CachePathIs` | lib/cache/cache.go:31-42 | ids shorter than seven characters are kept in the data directory, longer ones below their first three pairs of characters and the id |
| `WorkerCache.CachePlaceInjective` | lib/cache/cache.go:31-42 | nor do two ids without slashes share a place on disk, whatever dots they have |
| `WorkerCache.JoinedIsPart` | lib/cache/cache.go:1535-1548 | a pushed part is all of its node exactly if the other parts are there and empty |
| `WorkerCache.StepAgreesIff` | lib/cache/cache.go:1535-1580 | a push keeps cache and store in agreement exactly if what is moved to the cache is all of the node, or what could not be moved leaves nothing else behind |
| `WorkerCache.AgreesIffSafe` | lib/cache/cache.go:1535-1580 | cache and store agree after every event of a run exactly if each push of it is safe in its state |
| `WorkerCache.RunAgrees` | lib/cache/cache.go:1535-1580 | over every run of safe pushes and inputs, each cached file equals its node's content, and an input linked from the cache is what fetching it would give |
| `WorkerCache.RankZeroIsSafe` | lib/cache/cache.go:1535-1580 | a whole file pushed at rank 0 is safe exactly if it can be moved to the cache, or no other file of that node is there |
| `WorkerCache.RankZeroRunAgrees` | lib/cache/cache.go:1535-1580 | a run whose pushes are all of rank 0 and moved to the cache is safe, and cache and store agree after every event of it |
| `WorkerCache.PartSpoilsCache` | lib/cache/cache.go:1568-1580 | a part pushed at a higher rank makes a later input of rank 0 get the part |
| `WorkerCache.Worker.UploadOutput` | lib/cache/cache.go:1535-1580 | of two push attempts and a move that may fail: the node then holds the file, other nodes and their cached files stay as they were, agreement of cache and store is kept exactly if the push was safe, and after two failed attempts nothing has changed; the id is that of the first push that succeeds, and the file is moved exactly if its directory is there or made and the move succeeds |
| `WorkerCache.Worker.MoveInput` | lib/cache/cache.go:69-84 | an input comes from the cache if it is there and is then what the store holds, given agreement |
| `Auth.ApplyKeeps` | lib/auth/cache.go:20-54 | every step of every call keeps each cache entry, and each entry a call has read, backed by an answer for that header stored an hour before it expires |
| `Auth.ReturnedUsersWereProduced` | lib/auth/auth.go:34-58 | on every interleaving, a user returned for a header was produced by a method for that header; one from the cache was accepted less than an hour plus the storing delay after it was produced |
| `Auth.YoungIffPrompt` | lib/auth/cache.go:20-41 | accepted users are at most an hour old on all runs exactly if answers are stored at most one tick after they are produced |
| `Auth.EntryStaysIff` | lib/auth/cache.go:20-54 | from any state of the invariant, an unexpired entry stays or is renewed on every run that ends before it expires, exactly if no call is about to delete under its header or has read an entry there that expires sooner |
| `Auth.RefreshMayBeLost` | lib/auth/cache.go:20-30 | a run in which a call deletes an entry that another has just refreshed |
| `Auth.RefusedByAll` | lib/auth/auth.go:40-58 | on every interleaving, a call that is refused has asked every method, and each in vain |
| `AuthCache.Cache.Lookup` | lib/auth/cache.go:20-30 | the lookup as written is a run of the step machine: the stored user before expiry, and else none and no entry left |
| `AuthCache.Cache.Authenticate` | lib/auth/auth.go:34-58 | the call as written is a run of the step machine; it returns the cached user while not expired and changes nothing, else the answer of the first method that has one, stored for an hour, else none with no entry left |
| `Resampler.LastAtHolds` | utils/log_analyzer.py:629-678 | the reference index is the last entry at or before the time, the first if there is none |
| `Resampler.SamplesReachTheEnd` | utils/log_analyzer.py:614-629 | the last sample is at the greatest multiple of the interval not after the last entry, and there is none if that lies before zero |
| `Resampler.Advance` | utils/log_analyzer.py:629-641 | the moving pointer, started from where an earlier sample left it, stops in range at the reference index |
| `Resampler.Resample` | utils/log_analyzer.py:706-718 | all samples are the plain definition's, in at most samples plus series length inner steps |
| `Resampler.PlotWorkload` | utils/log_analyzer.py:608-678 | four series sampled in one loop with four pointers are each the plain definition's samples |
| `Resampler.PlotJobload` | utils/log_analyzer.py:693-725 | the job plot is the samples and a zero after them |
| `LogAnalyzer.GetWorkunitsByTask` | utils/log_analyzer.py:507-515 | the loop builds the ids of a task's workunits |
| `LogAnalyzer.UnitsAreItsOwn` | utils/log_analyzer.py:507-515 | a task of a given total has that many different workunit ids, none of them another task's |
| `LogAnalyzer.WorkIsConserved` | utils/log_analyzer.py:393-447 | on every run without restarts the work count minus the active workunits changes exactly by what is enqueued again while outstanding |
| `LogAnalyzer.RequeuedIsOverlap` | utils/log_analyzer.py:402-413 | what a task enqueues again is the number of its workunits still outstanding |
| `LogAnalyzer.WorkCoversActive` | utils/log_analyzer.py:393-447 | the work count is never below the number of active workunits, and equals it exactly if no task was enqueued while it had workunits outstanding |
| `LogAnalyzer.TotalsMustNotBeNegative` | utils/log_analyzer.py:408-409 | enqueueing a task keeps the count from falling below exactly if its total is not negative |
| `LogAnalyzer.BusyCountIsRight` | utils/log_analyzer.py:421-447 | on every run the busy count is the number of busy clients, each with a positive work count |
| `LogAnalyzer.SeriesAreSorted` | utils/log_analyzer.py:484-494 | a log in order of time gives series in order of time, as the resampler needs |
| `LogRuns.JobOfIs` | utils/log_analyzer.py:404-405 | the job of a task or workunit is the part of its id before the first bar |
| `LogRuns.UnitsAreNumbered` | utils/log_analyzer.py:507-515 | a task's workunits are its id and a number, 0 for a single one and else 1 up to the total |
| `LogRuns.ClientsHold` | utils/log_analyzer.py:421-479 | after every run, each client's count is what the log leaves it: one more for each workunit taken, one less for each done, none after it fails or leaves; and it is busy exactly if there are any |
| `LogRuns.ActiveIffOutstanding` | utils/log_analyzer.py:393-436 | after every run, a workunit is active exactly if it was queued with its task and since then neither done nor its job suspended |
| `LogRuns.WorkSinceRestart` | utils/log_analyzer.py:455-463 | after a restart the work count starts from zero, and workunits active before it are not in it |
| `LogRuns.SeriesFollow` | utils/log_analyzer.py:484-494 | after every run, the work series has a point at each queued task, done workunit, suspended job and restart, and both series end with the current counts |
| `LogRuns.SeriesGrow` | utils/log_analyzer.py:484-494 | the series of a run start with those of every run before it, so each point has the count after its line |
| `LogParser.Parser.Enqueue` | utils/log_analyzer.py:402-413 | the loop over a task's workunits makes them all active |
| `LogParser.Parser.Suspend` | utils/log_analyzer.py:393-400 | the loop over active workunits takes out exactly those of the job, and counts them |
| `LogParser.Parser.Handle` | utils/log_analyzer.py:393-479 | an event changes the counters and dictionaries as the model's step does, or stops at a missing key |
| `LogParser.Parser.ParseWorkload` | utils/log_analyzer.py:349-494 | the pass over the log is the run that the theorems are about |
| `Acl.Del` | lib/acl/acl.go:60-71 | the loop removes the first occurrence and keeps the rest in order |
| `Acl.Insert` | lib/acl/acl.go:73-80 | the loop appends a user only if absent |
| `Acl.RemovedIff` | lib/acl/acl.go:60-71 | removal takes a user off the list exactly if listed no more than once |
| `Acl.RemovedInPlace` | lib/acl/acl.go:60-71 | what is removed is the first occurrence, and the users before and after it stay in order |
| `Acl.InsertedLast` | lib/acl/acl.go:73-80 | a new user comes last, and a list that has the user stays as it is |
| `Acl.RunCounts` | lib/acl/acl.go:20-44 | from any list, duplicates included, the exact number of times a user is listed after any operations |
| `Acl.ListsAreSets` | lib/acl/acl.go:20-80 | from lists without duplicates they stay so, and a user is listed exactly if the last operation on that right granted it, or it was granted from the start and never touched |
| `Acl.AccessList.Set` | lib/acl/acl.go:33-44 | granting changes exactly the lists of the rights named |
| `Acl.AccessList.UnSet` | lib/acl/acl.go:20-31 | removing changes exactly the lists of the rights named |
| `Acl.AccessList.Check` | lib/acl/acl.go:46-58 | a right is granted exactly if the user is on its list |
| `Acl.AccessList.Apply` | lib/acl/acl.go:20-44 | any operations in a row on the object are the run that the theorems are about |
| `Acl.ClientGroupAccessList.Set` | lib/clientGroupAcl/clientGroupAcl.go:37-51 | the same with the fourth right |
| `Acl.ClientGroupAccessList.UnSet` | lib/clientGroupAcl/clientGroupAcl.go:21-35 | the same with the fourth right |
| `Acl.ClientGroupAccessList.Check` | lib/clientGroupAcl/clientGroupAcl.go:53-65 | the same with the fourth right |
| `Acl.ClientGroupAccessList.Apply` | lib/clientGroupAcl/clientGroupAcl.go:21-51 | the same with the fourth right |

## Left out

- Start-up, flags, HTTP serving, polling and process launch of the AWE programs, the controllers, and the queue manager behind them.
- In `cache.go`: networking, retries, checksums, sizes, `nameroot` and `nameext`, logging, node attributes, index creation, and tool, workflow and requirement nodes of the tree, which only lead to more Files.
- In `cache.go`: `removeIDField`, which deletes the `id` field of records after their values are processed; percent-escaping in URLs; failure to parse the Shock host's URL after a post.
- DataMoverObjects.UploadNode: the listing that a directory on disk gets is returned in a new node instead of being appended through the Directory's pointer; a File object that occurs twice in one tree is excluded, since it would be uploaded once and then met as remote.
- DataMoverObjects.UploadNodes: a File object that occurs twice in one tree is excluded.
- DataMoverObjects.DownloadNode: a File object that occurs twice in one tree is excluded; its second visit would fetch the location that the first one left.
- DataMoverObjects.DownloadNodes: a File object that occurs twice in one tree is excluded.
- DataMoverDownload.DownloadLands: states where Files land for plain names and an absolute base path; for all other names `DataMoverNames` states what becomes of existing files.
- DataMoverSuccess.UploadSucceedsIff: stated for directories that the current path reaches, with entries of plain names, and a current path that does not start with `file:`; a directory that is not reached may fail or take other files, as shown above.
- DataMoverFetch.DownloadSucceedsIff: stated for plain names and an absolute base path; if a Directory has the name of a File, what happens depends on their order and on names already taken.
- DataMoverWhole.UploadThenDownloadAny: the current path is empty or in shortest form, as its callers pass it; glob characters in directory names are not interpreted.
- WorkerCache.RunAgrees: outputs of type copy or update, outputs without a file and decompression are not part of this model; nor are the symbolic links that inputs leave in a work directory, which a program may write through and a later move may put into the cache.
- HashTrieMap.UpdateMapCorrect: nodes are values, so every update is a copy; the code edits a node in place when it was made under the owner id at hand, under `withMutations` and also while the outgrown array form is turned into a trie, and that such edits reach no older map is not part of this model.
- Utf8.RoundTrip: stated for well-formed strings; what becomes of unpaired surrogates and invalid bytes is stated by LoneSurrogates and DecodedIs.
- StringDecoderProof.ChunkingDoesNotMatter: the UTF-16 and base64 modes of the decoder are not part of this model.
- Memoizer.Memo.Invoke: asynchronous and promise modes, reference counting and disposal of the memoiser are not part of this model; calls inside an evaluation are given as a tree.
- LinkedTableRuns.IterateVisitsSurvivors: the callback's changes are given as a list of operations for each visit.
- Auth.ReturnedUsersWereProduced: the auth methods themselves are not part of this model; whatever they return is an answer.
- In `log_analyzer.py`: job and task counts, host tracking (which stores under the literal key `host`), date parsing, file output and plotting.
- In the bundles: React components, redux wiring, the YAML parser, floating point, regular expressions and the other polyfills.
