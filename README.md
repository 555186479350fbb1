# blobcmd core, modelled in Dafny

`blobcmd` is a command-line client for Azure Blob Storage. Its library package (`lib/blob.go`,
`lib/azure.go`) does three jobs:

- It reads blob addresses: it recognises `http[s]://` and `wasb[s]://` URIs, parses them into a
  `BlobContext`, extracts the blob name and validates a context's fields.
- It keeps one storage client per context, in a package-level cache.
- It drives the storage service through `AzureClient` and `AzureFile`:
  - removing containers and blobs;
  - testing whether they exist;
  - moving and renaming them;
  - opening a blob for writing;
  - appending to a blob by staging blocks and committing a new block list;
  - paging through a listing and rendering it as text.

This project models that core and proves what it does.

Modules, one per file:

- `Common`: `Option`, `Result`, bytes and small sequence facts.
- `GoStrings`: the Go standard-library string functions the code uses, on `seq<char>`. Every
  separator in the code is a single character. The functions are `Split`, `SplitN`, `Join`,
  `HasSuffix`, an ASCII `ToLower` and `Count`, with their split/join laws.
  - Go's `len` of a string counts the bytes of its UTF-8 encoding. `Utf8Length` is that count,
    and the 32-byte limit on container names is checked with it.
- `BlobUri` (`lib/blob.go`): `BlobContext`, `isBlobURI`, `ParseBlobURI`, `ParseBlobName`,
  `Validate` and `ValidateWithContainer`.
  - Where Go would panic on an out-of-range index after a split, the model returns
    `Failure(IndexOutOfRange)`.
- `ClientCache` (`lib/blob.go`): the `clients` map behind `BlobContext.GetBlobClient`.
  - The map is keyed by the whole context value, container and key included, as the code keys it.
  - A failed build is not remembered.
- `Storage`: a reference model of the blob service the SDK talks to.
  - The state is a `Store`: containers of blobs, each with a committed block list and a content
    type, plus the staged blocks.
  - `Enabled`, `Effect`, `Step` and `Run` give the meaning of every request.
  - The class `BlobService` performs one request per method and appends `(call, ok)` to its log.
  - Failures outside the model (network, authorisation) are the log indices in its `faults` set.
  - A block list is committed (`PutBlockList`) without a content-type header. As the service
    documents for Put Block List, the blob's content type then becomes the default,
    `application/octet-stream`, even when the blob had another one.
  - The pages that `ListBlobs` answers are a scripted queue.
  - A page can only be answered when it fits the request (`PageFits`). Its blobs are in the
    listed container and start with the prefix. With a one-character delimiter, no blob name holds
    the delimiter after the prefix.
- `BlockIds` and `Base64`: block names, `base64.StdEncoding.EncodeToString(fmt.Sprintf("%011d\n", k))`.
  - Base64 is the standard alphabet of section 4 of RFC 4648, with its decoder.
  - A block's number can be read back from its name, so distinct numbers give distinct names.
- `BlockWrite` (`lib/azure.go`, `AzureFile.Write`):
  - the chunks a write of `b` stages;
  - the plan of requests it makes;
  - the list it commits;
  - what running that plan does to the store.
- `Azure` (`lib/azure.go`): `convertToAzurePath` (in `AzurePath`), `Remove`, `Exists`, `moveBlob`,
  `Rename`, `OpenWriteCloser`, `AzureFile.Write` and `detectMime` (in `AzurePath`).
  - `AzureClient` and `AzureFile` are classes over a `BlobService`.
  - Each method's contract states three things: the plan of requests it attempted (stopping at the
    first failure), its answer, and that the store is the result of running the logged requests.
  - Lemmas beside the plans say what a plan does to the store.
- `BlobList` (`lib/blob.go`, `List`): the marker loop, one `ListBlobs` request per page.
- `BlobLines` (`lib/azure.go`): `SprintBlob` and the line order of `SprintBlobListCh`.

`Rename` of a container lists only the first page of the source container, as the code does. The
copies therefore cover the blobs of that page. `RenameContainerDropsUnlisted` proves the
consequence: a blob of the source that is not on that page, and that the destination did not hold
already, is in neither container after a successful rename.

`OpenWriteCloser` creates a missing blob with the content type that `detectMime` gives its name.
`Write` commits without a content type, so that type lasts only until the first successful `Write`.
`CreateThenWriteResetsType` proves this: after the creation and one successful write, the blob
holds the written bytes under the default type.

## Model

| member | source | states |
|---|---|---|
| ClientCache.Lookup | lib/blob.go:38-50 | a successful lookup leaves the returned client cached under the context |
| ClientCache.LookupKeeps | lib/blob.go:42-48 | a lookup never drops or replaces a client already cached |
| ClientCache.LookupMemoises | lib/blob.go:42-49 | after a successful lookup, looking the same context up again returns the same client whatever a new build would give, and leaves the cache as it is |
| ClientCache.LookupFailure | lib/blob.go:43-46 | a lookup fails exactly when the context is not cached and the build fails; it then returns the build's error and caches nothing |
| ClientCache.LookupAddsOnly | lib/blob.go:47 | a lookup adds no context but the one looked up |
| ClientCache.ClientCache.GetBlobClient | lib/blob.go:38-50 | the answer and the new cache are those of `Lookup` on the old cache |
| BlobUri.Scheme | lib/blob.go:92-94 | a recognised URI is one of the four schemes followed by `://` |
| BlobUri.Protocol | lib/blob.go:103 | the text before the first colon of a recognised URI is its scheme |
| BlobUri.SplitAfterScheme | lib/blob.go:108 | a recognised URI splits on `/` into the scheme with its colon, an empty piece, and the pieces of what follows `://` |
| BlobUri.ParseBlobURI | lib/blob.go:97-124 | fails with "not an blob" exactly when the URI is not recognised; never fills in the key; `UseHTTPS` holds exactly for `https://` and `wasbs://` URIs |
| BlobUri.ParsedFieldsClean | lib/blob.go:106-121 | a parsed container has no `/`; a parsed account has no `.` or `/`; a parsed endpoint has no `/` |
| BlobUri.HostSplit | lib/blob.go:110 | `account.service.endpoint` splits on its first two dots into its three parts |
| BlobUri.AuthoritySplit | lib/blob.go:116 | `container@host` splits at the `@` into the container and the host |
| BlobUri.ParseHostStyleURI | lib/blob.go:106-112 | parsing `http[s]://account.service.endpoint/container...` gives back that account, container and endpoint, secure exactly for `https` |
| BlobUri.ParseWasbStyleURI | lib/blob.go:113-121 | parsing `wasb[s]://container@account.service.endpoint...` gives back that container, account and endpoint, secure exactly for `wasbs` |
| BlobUri.ParseBlobName | lib/blob.go:126-140 | fails with "not an blob" exactly for an unrecognised URI; otherwise fails exactly when the URI has too few `/` to reach the name piece (4 for http, 3 for wasb); a name never holds `?` |
| BlobUri.HttpPrefix | lib/blob.go:131 | a recognised URI starts with `http` exactly when its scheme is `http` or `https` |
| BlobUri.CutQuery | lib/blob.go:139 | cutting `path?query` at the first `?` gives the path |
| BlobUri.HostStyleBlobName | lib/blob.go:131-139 | the name parsed from `http[s]://host/container/path?query` is `path` |
| BlobUri.WasbStyleBlobName | lib/blob.go:134-139 | the name parsed from `wasb[s]://container@host/path?query` is `path` |
| BlobUri.Missing | lib/blob.go:52-67 | a field is reported missing exactly when it is one of the checked fields and is empty |
| BlobUri.Validate | lib/blob.go:52-67 | succeeds exactly when account name, key and endpoint are all set; the error reads back as exactly the empty ones, in that order |
| BlobUri.ValidateWithContainer | lib/blob.go:69-82 | succeeds exactly when `Validate` does and the container is set; the error reads back as the empty credentials followed by the container when empty |
| BlobUri.CredentialsMessage | lib/blob.go:53-62 | the report has one "X is required" line per empty field, for account name, key and endpoint in that order |
| BlobUri.ValidateIsMessage | lib/blob.go:63-66 | `Validate` answers no error for no missing field, and otherwise the report of the missing ones |
| BlobUri.ContainerMessage | lib/blob.go:70-77 | `ValidateWithContainer`'s report is `Validate`'s report followed by the container line when the container is empty |
| BlobUri.MissingAppend | lib/blob.go:70-77 | the missing fields of two lists of fields are those of each list, in order |
| BlobUri.MessageAppend | lib/blob.go:73-76 | the report for two lists of fields is the two reports one after the other |
| BlobUri.ReadMessage | lib/blob.go:63-66 | a report reads back as exactly the fields it was made from |
| BlobUri.MessageJoin | lib/blob.go:53-62 | a report is its lines joined by newlines, with a final newline |
| BlobUri.FieldsOfLinesOfFields | lib/blob.go:55-61 | the lines of a report give back the fields they were made from |
| AzurePath.ConvertToAzurePath | lib/azure.go:36-46 | fails with the length error exactly when the text before the first `/` is over 32 bytes of UTF-8; otherwise returns a container free of `/` of at most 32 bytes, and a name that joins back with `/` to the input (or is empty without `/`) |
| AzurePath.ContainerPartIsLongestPrefix | lib/azure.go:37-38 | the container part measured against the limit is the longest prefix of the path without `/` |
| AzurePath.ConvertJoined | lib/azure.go:36-46 | converting `container/blob` gives back the container and the blob |
| AzurePath.ConvertContainer | lib/azure.go:41-45 | a bare container name converts to itself and an empty blob name |
| AzurePath.ConvertCountsBytes | lib/azure.go:38 | the limit counts bytes: a container part of seventeen `é` (34 bytes) is refused |
| AzurePath.StripParams | lib/azure.go:475 | the result is the prefix of the type before its first `;`, free of `;` |
| AzurePath.DetectMime | lib/azure.go:456-479 | the type never holds `;`; it is the table's type for `csv`, `json`, `avro` and `gz`; for any other extension it is the system's type, or the fallback when that is empty, without parameters |
| AzurePath.DetectMimeLastExtension | lib/azure.go:457-458 | only the text after the last `.` decides the type |
| AzurePath.DetectMimeIgnoresCase | lib/azure.go:458 | an extension and its lowercase get the same type |
| AzurePath.DetectMimeKnown | lib/azure.go:460-468 | an extension in the table gets the table's type, whatever the system answers |
| AzurePath.DetectMimeSystem | lib/azure.go:469-475 | any other extension gets the system's type |
| AzurePath.DetectMimeTableCases | lib/azure_test.go:6-10 | `csv`, `json`, `avro`, `gz` give `text/csv`, `application/json`, `avro/binary`, `application/gzip` |
| AzurePath.DetectMimeHtml | lib/azure_test.go:11 | `html` gives `text/html` when the system answers `text/html; charset=utf-8` |
| AzurePath.DetectMimeJpg | lib/azure_test.go:12 | `jpg` gives `image/jpeg` when the system answers `image/jpeg` |
| AzurePath.DetectMimeEmpty | lib/azure_test.go:13 | the empty name gives `application/octet-stream` when the system knows no type for it |
| Azure.RemoveContainerOnly | lib/azure.go:51-58 | `Remove` deletes a container exactly for a name without `/` that is 32 bytes of UTF-8 long |
| Azure.RemoveShortName | lib/azure.go:59-64 | a name without `/` of fewer than 32 bytes deletes the empty-named blob of that container |
| Azure.RemoveLongName | lib/azure.go:59-62 | a name without `/` of more than 32 bytes is refused with the length error before any request |
| Azure.RemoveBlobPath | lib/azure.go:59-64 | `container/blob` deletes that blob, or is refused when the container part is over 32 bytes |
| Azure.RemoveCountsBytes | lib/azure.go:52 | sixteen `é` are 32 bytes, so `Remove` deletes them as a container |
| Azure.AzureClient.Remove | lib/azure.go:50-66 | makes exactly the one request `RemoveRequest` names, or none on a refused name; answers its failure; the store follows the request |
| Azure.AzureClient.Exists | lib/azure.go:70-80 | refuses an unconvertible name with no request; otherwise makes one existence probe, of the blob or, for an empty blob name, of the container; answers whether that is in the store; changes nothing |
| Azure.ProbeKeepsStore | lib/azure.go:70-80 | the existence probe of `Exists`, whether or not it succeeds, leaves the store as it was |
| Azure.MoveNothingInPlace | lib/azure.go:87-89 | `moveBlob` makes no request exactly when source and destination are the same blob |
| Azure.MoveBlobEffect | lib/azure.go:86-102 | a blob move whose requests succeed puts the source blob at the destination and removes the source; every other blob and the set of containers stay |
| Azure.AzureClient.MoveBlob | lib/azure.go:86-102 | attempts the copy and then, outside a container rename, the delete of the source, stopping at the first failure; the store follows the requests |
| Azure.CopyNext | lib/azure.go:132-137 | one turn of the copy loop extends a successful run of copies by one blob, or ends a failed attempt at all of them |
| Azure.AzureClient.CopyBlobs | lib/azure.go:132-137 | attempts one `moveBlob` per listed blob, in order, keeping the sources, stopping at the first failure |
| Azure.RunCopies | lib/azure.go:132-137 | successful copies give the destination each listed blob as the source has it, keep its other blobs, add no other blob, and change no other container |
| Azure.SelfRenamePlan | lib/azure.go:132-137 | when source and destination containers are the same, the copies make no request |
| Azure.ContainerRenameRemovesSource | lib/azure.go:138 | a container rename that completes has deleted the source container, whatever the destination |
| Azure.AzureClient.MoveContainer | lib/azure.go:127-141 | attempts creating the destination, the copies and deleting the source, in that order, stopping at the first failure |
| Azure.AzureClient.RenameContainer | lib/azure.go:122-141 | attempts listing the first page of the source and then `MoveContainer` of that page's blobs; on success every blob on that page is a blob of the source |
| Azure.PageFitsListed | lib/azure.go:123-136 | every blob on a page the service answers for a container is a blob of that container |
| Azure.ContainerRenameMoves | lib/azure.go:122-141 | a successful rename between different containers deletes the source; the destination then holds every listed blob as the source had it, and nothing else but its own earlier blobs |
| Azure.BlobRenameOutcome | lib/azure.go:142-143 | for two blob paths, a rename probes the old blob first; a failed probe or a missing blob ends it with an error; otherwise the move is attempted and no error is answered, whether or not the move succeeds |
| Azure.RenameSucceedsOnlyOnMatchingPaths | lib/azure.go:107-146 | a rename without error had both paths convert and the old one exist, and moved container to container or blob to blob |
| Azure.RenameRefusalKeepsStore | lib/azure.go:107-146 | a rename refused for a missing old path or for paths of different kinds makes only the existence probe and changes nothing |
| Azure.FailedCopyRun | lib/azure.go:90-93 | a probe followed by a failed copy leaves the store as it was; it is a move attempt that failed at its first request |
| Azure.RenameDropsMoveFailure | lib/azure.go:142-143 | renaming an existing blob whose copy fails answers no error and changes nothing |
| Azure.RenameBlobMoves | lib/azure.go:142-143 | a successful blob rename onto another blob puts the old blob at the new path and removes it from the old one |
| Azure.RenameContainerMoves | lib/azure.go:122-141 | a successful container rename between different containers removes the old container; the new one holds every listed blob as the old one had it, and nothing else but its own earlier blobs |
| Azure.RenameContainerDropsUnlisted | lib/azure.go:123-139 | after a successful container rename, a blob of the old container that was not on the first listed page, and that the new container did not hold, is in neither container |
| Azure.SelfRenameDeletesContainer | lib/azure.go:122-141 | as written, a successful rename of a container to itself deletes a container that existed |
| Azure.AzureClient.Rename | lib/azure.go:106-149 | the requests, the answer and the new store satisfy `RenameOutcome`, which covers every branch: probe of the old path, missing path, unconvertible paths, container rename (with its listed blobs in the source), blob rename (error dropped), mismatch |
| Azure.AzureClient.RenameGuarded | lib/azure.go:106-149 | renaming a path onto itself only probes it and changes nothing, answering no error exactly when it exists; any other rename behaves as `Rename` |
| Azure.CreatePlanEffect | lib/azure.go:172-185 | successful creation leaves the blob empty with the given content type and keeps every other container |
| Azure.CreateThenWriteResetsType | lib/azure.go:172-256 | a blob created with a content type and then written once holds the written bytes with the default content type, not the one it was created with |
| Azure.AzureClient.CreateBlob | lib/azure.go:173-185 | attempts creating the container, the empty blob and setting its content type, in that order, stopping at the first failure |
| Azure.AzureClient.OpenWriteCloser | lib/azure.go:163-193 | probes the path; an existing path opens with no further request; a missing one first attempts creating it with the type `detectMime` gives; a file is returned exactly when there is no error |
| Azure.AzureFile.CommittedRefs | lib/azure.go:224-227 | the committed block IDs, each marked committed, in order |
| Azure.AzureFile.StageChunks | lib/azure.go:229-250 | attempts one staging request per chunk under the block numbers that follow the committed ones; on success the list to commit is the old blocks followed by the new ones |
| Azure.AzureFile.StageAndCommit | lib/azure.go:223-256 | after the block-list read, attempts the rest of `WritePlan`: one `PutBlock` per chunk under block numbers counting on from the committed ones, then `PutBlockList`, stopping at the first failure; the store follows the logged requests |
| Azure.AzureFile.Append | lib/azure.go:212-256 | attempts `WritePlan`; success implies the blob existed before; on success, for a blob whose committed block IDs are distinct, the blob's content is the old content followed by `b`; on failure no blob or container changed |
| Azure.AzureFile.Write | lib/azure.go:203-257 | refuses empty input and unconvertible paths with no request; otherwise attempts `WritePlan`; answers `len(b)` exactly on success and 0 otherwise; success implies the blob existed before and, for a blob whose committed block IDs are distinct, appends `b` to its content; failure changes no blob |
| BlockIds.ValuePad11 | lib/azure.go:241 | the 11-digit zero-padded decimal reads back to the number |
| BlockIds.BlockNumberOfId | lib/azure.go:241 | a block's number can be read back from its name |
| BlockIds.BlockIdInjective | lib/azure.go:241 | two block numbers give the same name exactly when they are equal |
| Base64.DecodeEncode | lib/azure.go:241 | decoding the standard base64 encoding gives back the bytes |
| Base64.EncodeInjective | lib/azure.go:241 | distinct byte strings have distinct encodings |
| BlockWrite.FlattenChunks | lib/azure.go:229-250 | the chunks read from `b` concatenate back to `b` |
| BlockWrite.ChunkSizes | lib/azure.go:229-236 | every chunk holds between 1 and 4 MiB bytes; there are none exactly for empty input |
| BlockWrite.ChunksStep | lib/azure.go:233-242 | each read takes the next `min(4 MiB, remaining)` bytes |
| BlockWrite.NewIdsNumbered | lib/azure.go:223-249 | the new block names are pairwise distinct and carry the numbers that follow the committed count |
| BlockWrite.AmendList | lib/azure.go:224-248 | the list to commit holds the old IDs as committed, then the new IDs as uncommitted |
| BlockWrite.WellNumberedAppend | lib/azure.go:223-249 | a block list in which block `k` is named `BlockId(k)` stays so after a write, and has distinct IDs |
| BlockWrite.ContentNewBlocks | lib/azure.go:242-248 | the new blocks hold the chunks, so their content is the written bytes |
| BlockWrite.WritePlanParts | lib/azure.go:212-252 | a write's plan is the block-list query, one staging request per chunk under the next block numbers, then the commit of the amended list |
| BlockWrite.PlanCommitsLast | lib/azure.go:252 | only the last request of a write commits |
| BlockWrite.NoCommitAfterFailedStage | lib/azure.go:243-246 | once a block fails to stage, the write fails and no block list is committed |
| BlockWrite.StageNext | lib/azure.go:232-250 | one turn of the read loop stages the next chunk under the next block number, or ends a failed attempt at the whole write |
| BlockWrite.ResolveAmendList | lib/azure.go:252 | for a blob whose committed block IDs are distinct, once the chunks are staged under distinct new IDs, the committed list resolves to the old blocks followed by the new ones |
| BlockWrite.RunWritePlan | lib/azure.go:212-255 | a write whose requests all succeed stages the chunks and then commits the old blocks followed by the new ones |
| BlockWrite.WriteCommits | lib/azure.go:212-256 | for an existing blob whose committed block IDs are distinct, a successful write commits the old blocks followed by the new ones, resets the blob's content type to the default and changes no other blob or container |
| BlockWrite.WriteAppends | lib/azure.go:195-256 | for an existing blob whose committed block IDs are distinct, a successful write appends `b` to the blob's content, resets its content type to the default and changes no other blob or container |
| BlockWrite.FailedWriteKeepsContainers | lib/azure.go:201-202 | a write that stops at a failure leaves every container and blob as it was |
| BlobList.Paginate | lib/blob.go:153-207 | fetches scripted pages in order until one has no next marker or a request fails; the log gains exactly those requests; the pages are consumed from the script |
| BlobList.List | lib/blob.go:142-210 | looks the client up in the cache, answering the cache's error, else pages through the container; the names returned are always empty |
| BlobList.PagedRequests | lib/blob.go:153-159 | every request lists the container with the prefix, with the delimiter `/` exactly when not recursive |
| BlobList.PagedMarkers | lib/blob.go:203-206 | the first request has no marker; each later one passes the previous page's next marker |
| BlobList.FirstEnd | lib/blob.go:203-205 | finds the first page without a next marker, or reports that there is none |
| BlobList.PagedStopsAtFirstEnd | lib/blob.go:158-207 | a listing without error fetched exactly the pages up to the first one without a next marker |
| BlobList.PagedFailsBeforeEnd | lib/blob.go:159-162 | a failed listing stopped before the end page; its last request is the failed one |
| BlobLines.SprintBlob | lib/azure.go:435-437 | a blob's line holds at least four tabs |
| BlobLines.ReadSprintBlob | lib/azure.go:435-437 | a blob with no tab in its text properties reads back from its line |
| BlobLines.SprintBlobInjective | lib/azure.go:435-437 | such blobs have equal lines exactly when they are equal |
| BlobLines.PageLines | lib/azure.go:377-384 | a page emits its prefixes (unless recursive) and then one line per blob, in order |
| BlobLines.LinesAppend | lib/azure.go:368-389 | pages emitted one run after another emit their lines one after another |
| BlobLines.LinesLength | lib/azure.go:372-384 | the number of lines is the number of blobs plus, unless recursive, of prefixes |
| BlobLines.RecursiveLinesAreBlobs | lib/azure.go:377-384 | every line of a recursive listing reads back to a blob of some page |
| Storage.BlobURLInjective | lib/azure.go:87-89 | two blob URLs are equal exactly when they name the same container and blob |
| Storage.LocateBlobURL | lib/azure.go:88-90 | the source URL of a copy leads back to the source blob |

## Left out

- Printing and concurrency: the goroutines, `sync.WaitGroup`/`RWMutex` and channels of `List`,
  `ListAndPrint`, `Find`, `FprintBlobList`, `SprintBlobListCh` and `SprintBlobCh`. They only move
  values between goroutines and standard output.
  - `BlobLines.Lines` is the output order of `FprintBlobList` and `SprintBlobListCh` only. Each
    reads one ordered channel of pages, as `ListAndPrint` feeds `FprintBlobList`.
  - `List` prints each page's prefix group and its blob group from separate goroutines. The mutex
    keeps the lines of one group together, but nothing fixes the order of the groups, within a
    page or across pages. That order is not modelled.
- BlobList.List: the `print` parameter is unused by the code and is not modelled. The pages are
  returned instead of printed.
- `lib/azure.go` `list`: the same marker loop as `List`'s, except that it logs a failed request and
  retries it forever. `BlobList.Paginate` covers the loop; the unbounded retry is not modelled.
- `Copy`, `GetReader` and `Upload` in `lib/blob.go`: `Copy` and `Upload` do not compile as
  written, and `GetReader` only forwards to the SDK's `GetBlob`.
- `OpenReadCloser` and `AzureFile.Close`: one forwarded SDK call, and a no-op.
- `Glob`: it needs `path.Match` pattern semantics, which are outside this model.
- `NewAzureClient`, `GetBlobClient` (the function) and `storage.NewClient`: building a client is
  outside the model. Its outcome is the `built` parameter of the cache lookup.
- `mime.TypeByExtension` is the `typeByExtension` parameter of `AzureClient`.
- AzurePath.DetectMime: lowercases ASCII letters only. Go's `strings.ToLower` also lowers non-ASCII
  letters.
- The SDK's URL escaping in `GetBlobURL`: a blob URL is `endpoint/container/blob`, unescaped.
- The boolean results of `DeleteContainerIfExists`, `DeleteBlobIfExists` and
  `CreateContainerIfNotExists`: the code discards them.
- The SDK's error texts: a service error is an opaque string.
- The uncommitted part of `GetBlockList`, and the service's garbage collection of staged blocks
  that are never committed. `Write` reads only the committed blocks.
- The service's own paging and ordering of `ListBlobs`: its pages are a scripted queue.
  - A page is tied to the store only through `PageFits`. It is not required to list every blob
    of the container with the prefix, nor to follow the marker of the request.
  - Once the scripted queue is used up, every further `ListBlobs` fails.
- `storage.MaxBlobBlockSize` is taken as 4 MiB.
- Go strings that are not valid UTF-8: a string here is a sequence of Unicode scalar values, and
  `len` is the length of its UTF-8 encoding.
- The error path of the reader in `Write`: reading a `bytes.Reader` fails only with `io.EOF`.
- Logging (`log.Printf` in `OpenWriteCloser`).
- The other blob properties and the metadata that Put Block List also clears: a blob here carries
  only its blocks and a content type. The reset of the content type follows the service's
  documentation of Put Block List. Nothing in the repository states it.
- Azure.AzureFile.Write: the new content is stated only for a blob whose committed block IDs are
  distinct. With duplicate IDs the service's resolution of a committed ID is not modelled.
- Azure.AzureFile.Append: the same condition as `Write`. The content after a successful append is
  stated only for a blob whose committed block IDs are distinct.
- BlockWrite.ResolveAmendList: stated only for a blob whose committed block IDs are distinct.
- BlockWrite.WriteCommits: stated only for an existing blob whose committed block IDs are distinct.
- BlockWrite.WriteAppends: stated only for an existing blob whose committed block IDs are distinct.

## Findings

| source | as written | input that shows it | evidently intended | confidence | as-written member | corrected member |
|---|---|---|---|---|---|---|
| lib/azure.go:122-141 | renaming a container onto itself skips every copy, because `moveBlob` sees equal URLs, then deletes the source container with all its blobs | `Rename("c", "c")` for an existing container `c`, every request succeeding | a rename onto the same path changes nothing, as `moveBlob` already does for a blob moved onto itself | not executed | Azure.SelfRenameDeletesContainer | Azure.AzureClient.RenameGuarded |
