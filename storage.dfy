/**
 * The blob storage service the library talks to (the Azure SDK's `BlobStorageClient`), as a
 * reference in-memory model. Its semantics are given once, as pure functions over a `Store`
 * (`Enabled`, `Effect`, `Step`, `Run`); the `BlobService` class performs one request per method,
 * records it in its call log and is proved against those functions.
 *
 * Which requests fail for reasons outside the model (network, throttling, authorisation) is fixed
 * in advance by the `faults` set: the request with log index `k` fails when `k` is in `faults`.
 * The answers to `ListBlobs` are scripted in `Store.listing`, one page per request, because the
 * service's paging and ordering are not modelled.
 */
module Storage {

  import opened Common
  import opened GoStrings

  /** One entry of a listing page (`storage.Blob` with its properties). */
  datatype BlobEntry = BlobEntry(
    name: string,
    blobType: string,
    contentLength: nat,
    contentType: string,
    lastModified: string)

  datatype ListBlobsParameters = ListBlobsParameters(prefix: string, delimiter: string, marker: string)

  /** One page of a listing: blobs, virtual-directory prefixes and the marker of the next page. */
  datatype BlobListResponse = BlobListResponse(
    blobs: seq<BlobEntry>,
    blobPrefixes: seq<string>,
    nextMarker: string)

  datatype Block = Block(id: string, data: seq<byte>)

  /** A blob: its committed block list and its content type. */
  datatype BlobState = BlobState(committed: seq<Block>, contentType: string)

  datatype BlockStatus = Committed | Uncommitted

  /** An entry of the list sent with `PutBlockList`. */
  datatype BlockRef = BlockRef(id: string, status: BlockStatus)

  /** The address of a staged (uncommitted) block. */
  datatype BlockKey = BlockKey(container: string, blob: string, id: string)

  datatype Store = Store(
    containers: map<string, map<string, BlobState>>,
    staged: map<BlockKey, seq<byte>>,
    listing: seq<BlobListResponse>)

  datatype Call =
    | ListBlobsCall(container: string, params: ListBlobsParameters)
    | GetBlockListCall(container: string, blob: string)
    | PutBlockCall(container: string, blob: string, id: string, data: seq<byte>)
    | PutBlockListCall(container: string, blob: string, refs: seq<BlockRef>)
    | CopyBlobCall(container: string, blob: string, sourceURL: string)
    | DeleteBlobCall(container: string, blob: string)
    | DeleteBlobIfExistsCall(container: string, blob: string)
    | DeleteContainerCall(container: string)
    | DeleteContainerIfExistsCall(container: string)
    | CreateContainerIfNotExistsCall(container: string)
    | BlobExistsCall(container: string, blob: string)
    | ContainerExistsCall(container: string)
    | CreateBlockBlobCall(container: string, blob: string, contentType: string)
    | SetBlobPropertiesCall(container: string, blob: string, contentType: string)

  /** One request as the service saw it, and whether it succeeded. */
  datatype Entry = Entry(call: Call, ok: bool)

  /** The content type a blob gets when a commit creates it. */
  const DefaultContentType := "application/octet-stream"

  // ---------------------------------------------------------------------------
  // Addresses

  /** `GetBlobURL`: the address of a blob under the service endpoint. */
  function BlobURL(endpoint: string, container: string, blob: string): string
  {
    endpoint + "/" + container + "/" + blob
  }

  /** The container and blob a URL under `endpoint` addresses, if any. */
  function Locate(endpoint: string, url: string): Option<(string, string)>
  {
    var root := endpoint + "/";
    if root <= url && '/' in url[|root|..] then
      var path := url[|root|..];
      var i := IndexOf(path, '/');
      Some((path[..i], path[i + 1..]))
    else None
  }

  /** A blob URL leads back to its container and blob when the container name has no `/`. */
  lemma LocateBlobURL(endpoint: string, container: string, blob: string)
    requires '/' !in container
    ensures Locate(endpoint, BlobURL(endpoint, container, blob)) == Some((container, blob))
  {
    var root := endpoint + "/";
    var url := BlobURL(endpoint, container, blob);
    assert url == root + (container + "/" + blob);
    var path := container + ['/'] + blob;
    assert container + "/" + blob == path;
    assert url[|root|..] == path;
    IndexOfAfter(container, '/', blob);
    assert path[..|container|] == container && path[|container| + 1..] == blob;
  }

  /** Distinct blobs have distinct URLs (for container names without `/`). */
  lemma BlobURLInjective(endpoint: string, c1: string, b1: string, c2: string, b2: string)
    requires '/' !in c1 && '/' !in c2
    ensures BlobURL(endpoint, c1, b1) == BlobURL(endpoint, c2, b2) <==> c1 == c2 && b1 == b2
  {
    LocateBlobURL(endpoint, c1, b1);
    LocateBlobURL(endpoint, c2, b2);
  }

  // ---------------------------------------------------------------------------
  // Blocks

  /** The bytes of a blob: its committed blocks' data in order. */
  function Content(blocks: seq<Block>): seq<byte>
  {
    if blocks == [] then [] else blocks[0].data + Content(blocks[1..])
  }

  lemma {:induction false} ContentAppend(a: seq<Block>, b: seq<Block>)
    ensures Content(a + b) == Content(a) + Content(b)
  {
    if a == [] {
      assert a + b == b;
    } else {
      assert (a + b)[1..] == a[1..] + b;
      ContentAppend(a[1..], b);
    }
  }

  function Ids(blocks: seq<Block>): (ids: seq<string>)
    ensures |ids| == |blocks| && forall i :: 0 <= i < |blocks| ==> ids[i] == blocks[i].id
  {
    seq(|blocks|, i requires 0 <= i < |blocks| => blocks[i].id)
  }

  /** The first block with the given ID. */
  function FindBlock(blocks: seq<Block>, id: string): (r: Option<Block>)
    ensures r.Some? <==> id in Ids(blocks)
    ensures r.Some? ==> r.value in blocks && r.value.id == id
  {
    if blocks == [] then None
    else if blocks[0].id == id then Some(blocks[0])
    else
      var r := FindBlock(blocks[1..], id);
      assert Ids(blocks[1..]) == Ids(blocks)[1..];
      r
  }

  /** No ID occurs twice. */
  predicate Distinct(ids: seq<string>)
  {
    forall i, j :: 0 <= i < j < |ids| ==> ids[i] != ids[j]
  }

  /** No two blocks share an ID. */
  predicate DistinctIds(blocks: seq<Block>)
  {
    Distinct(Ids(blocks))
  }

  /** With distinct IDs, looking up a block's ID finds that block. */
  lemma {:induction false} FindDistinct(blocks: seq<Block>, k: nat)
    requires DistinctIds(blocks) && k < |blocks|
    ensures FindBlock(blocks, blocks[k].id) == Some(blocks[k])
  {
    if k > 0 {
      assert blocks[0].id != blocks[k].id;
      assert blocks[1..][k - 1] == blocks[k];
      FindDistinct(blocks[1..], k - 1);
    }
  }

  /** The committed blocks of a blob, or none when it does not exist. */
  function CommittedOf(s: Store, c: string, n: string): seq<Block>
  {
    if c in s.containers && n in s.containers[c] then s.containers[c][n].committed else []
  }

  function ResolveRef(s: Store, c: string, n: string, r: BlockRef): Option<Block>
  {
    match r.status
    case Committed => FindBlock(CommittedOf(s, c, n), r.id)
    case Uncommitted =>
      var key := BlockKey(c, n, r.id);
      if key in s.staged then Some(Block(r.id, s.staged[key])) else None
  }

  /** The blocks a `PutBlockList` would commit, or None when one of them cannot be found. */
  function Resolve(s: Store, c: string, n: string, refs: seq<BlockRef>): (r: Option<seq<Block>>)
    ensures r.Some? <==> forall i :: 0 <= i < |refs| ==> ResolveRef(s, c, n, refs[i]).Some?
    ensures r.Some? ==> (|r.value| == |refs|
      && forall i :: 0 <= i < |refs| ==> r.value[i] == ResolveRef(s, c, n, refs[i]).value)
  {
    if refs == [] then Some([])
    else
      match ResolveRef(s, c, n, refs[0])
      case None => None
      case Some(b) =>
        match Resolve(s, c, n, refs[1..])
        case None =>
          assert forall i :: 1 <= i < |refs| ==> refs[i] == refs[1..][i - 1];
          None
        case Some(rest) =>
          assert forall i :: 1 <= i < |refs| ==> refs[i] == refs[1..][i - 1];
          Some([b] + rest)
  }

  // ---------------------------------------------------------------------------
  // Semantics of one request

  predicate BlobIn(s: Store, c: string, n: string)
  {
    c in s.containers && n in s.containers[c]
  }

  /**
   * Whether the service can answer a listing of container `c` with `page`: every blob on it is
   * in `c` and its name starts with the prefix, and with a one-character delimiter no blob name
   * holds the delimiter after the prefix (those names are rolled up into `blobPrefixes`), each
   * of which starts with the prefix too.
   */
  predicate PageFits(s: Store, c: string, params: ListBlobsParameters, page: BlobListResponse)
    requires c in s.containers
  {
    (forall e :: e in page.blobs ==>
       e.name in s.containers[c] && params.prefix <= e.name
       && (|params.delimiter| == 1 ==> params.delimiter[0] !in e.name[|params.prefix|..]))
    && forall p :: p in page.blobPrefixes ==> params.prefix <= p
  }

  /** Whether a request succeeds on the store, apart from injected faults. */
  predicate Enabled(s: Store, endpoint: string, call: Call)
  {
    match call
    case ListBlobsCall(c, params) => c in s.containers && |s.listing| > 0 && PageFits(s, c, params, s.listing[0])
    case GetBlockListCall(c, n) => BlobIn(s, c, n)
    case PutBlockCall(c, _, _, _) => c in s.containers
    case PutBlockListCall(c, n, refs) => c in s.containers && Resolve(s, c, n, refs).Some?
    case CopyBlobCall(c, _, url) =>
      c in s.containers && Locate(endpoint, url).Some?
      && BlobIn(s, Locate(endpoint, url).value.0, Locate(endpoint, url).value.1)
    case DeleteBlobCall(c, n) => BlobIn(s, c, n)
    case DeleteBlobIfExistsCall(_, _) => true
    case DeleteContainerCall(c) => c in s.containers
    case DeleteContainerIfExistsCall(_) => true
    case CreateContainerIfNotExistsCall(_) => true
    case BlobExistsCall(_, _) => true
    case ContainerExistsCall(_) => true
    case CreateBlockBlobCall(c, _, _) => c in s.containers
    case SetBlobPropertiesCall(c, n, _) => BlobIn(s, c, n)
  }

  function PutBlob(s: Store, c: string, n: string, blob: BlobState): Store
    requires c in s.containers
  {
    s.(containers := s.containers[c := s.containers[c][n := blob]])
  }

  function RemoveBlob(s: Store, c: string, n: string): Store
  {
    if c in s.containers then s.(containers := s.containers[c := s.containers[c] - {n}]) else s
  }

  /** The store after a successful request. */
  function Effect(s: Store, endpoint: string, call: Call): Store
    requires Enabled(s, endpoint, call)
  {
    match call
    case ListBlobsCall(_, _) => s.(listing := s.listing[1..])
    case GetBlockListCall(_, _) => s
    case PutBlockCall(c, n, id, data) => s.(staged := s.staged[BlockKey(c, n, id) := data])
    case PutBlockListCall(c, n, refs) =>
      // Sent without a content-type header, so the service resets the type to its default.
      PutBlob(s, c, n, BlobState(Resolve(s, c, n, refs).value, DefaultContentType))
    case CopyBlobCall(c, n, url) =>
      var (sc, sn) := Locate(endpoint, url).value;
      PutBlob(s, c, n, s.containers[sc][sn])
    case DeleteBlobCall(c, n) => RemoveBlob(s, c, n)
    case DeleteBlobIfExistsCall(c, n) => RemoveBlob(s, c, n)
    case DeleteContainerCall(c) => s.(containers := s.containers - {c})
    case DeleteContainerIfExistsCall(c) => s.(containers := s.containers - {c})
    case CreateContainerIfNotExistsCall(c) =>
      if c in s.containers then s else s.(containers := s.containers[c := map[]])
    case BlobExistsCall(_, _) => s
    case ContainerExistsCall(_) => s
    case CreateBlockBlobCall(c, n, ctype) => PutBlob(s, c, n, BlobState([], ctype))
    case SetBlobPropertiesCall(c, n, ctype) =>
      PutBlob(s, c, n, s.containers[c][n].(contentType := ctype))
  }

  /** The store after one logged request: a failed request changes nothing. */
  function Step(s: Store, endpoint: string, e: Entry): Store
  {
    if e.ok && Enabled(s, endpoint, e.call) then Effect(s, endpoint, e.call) else s
  }

  /** The store after a sequence of logged requests. */
  function Run(s: Store, endpoint: string, entries: seq<Entry>): Store
    decreases |entries|
  {
    if entries == [] then s
    else Run(Step(s, endpoint, entries[0]), endpoint, entries[1..])
  }

  lemma {:induction false} RunAppend(s: Store, endpoint: string, a: seq<Entry>, b: seq<Entry>)
    ensures Run(s, endpoint, a + b) == Run(Run(s, endpoint, a), endpoint, b)
    decreases |a|
  {
    if a == [] {
      assert a + b == b;
    } else {
      assert (a + b)[1..] == a[1..] + b;
      RunAppend(Step(s, endpoint, a[0]), endpoint, a[1..], b);
    }
  }

  /** A request that only reads (an existence probe, a block-list query) leaves the store as it was, whether or not it succeeds. */
  lemma RunReadOnly(s: Store, endpoint: string, e: Entry)
    requires e.call.BlobExistsCall? || e.call.ContainerExistsCall? || e.call.GetBlockListCall?
    ensures Run(s, endpoint, [e]) == s
  {
    assert [e][1..] == [];
    assert Step(s, endpoint, e) == s;
  }

  lemma RunSnoc(s: Store, endpoint: string, a: seq<Entry>, e: Entry)
    ensures Run(s, endpoint, a + [e]) == Step(Run(s, endpoint, a), endpoint, e)
  {
    RunAppend(s, endpoint, a, [e]);
    assert [e][1..] == [];
  }

  /** A successful deletion of an existing container removes that container and no other. */
  lemma DeleteContainerStep(s: Store, endpoint: string, c: string)
    requires c in s.containers
    ensures Step(s, endpoint, Entry(DeleteContainerCall(c), true)).containers == s.containers - {c}
  {
  }

  /** A successful copy from a blob URL puts the source blob at the destination. */
  lemma CopyStep(s: Store, endpoint: string, c: string, n: string, sc: string, sn: string)
    requires '/' !in sc && c in s.containers && BlobIn(s, sc, sn)
    ensures Step(s, endpoint, Entry(CopyBlobCall(c, n, BlobURL(endpoint, sc, sn)), true))
      == PutBlob(s, c, n, s.containers[sc][sn])
  {
    LocateBlobURL(endpoint, sc, sn);
  }

  /** A successful commit of a list that resolves puts the resolved blocks in the blob, with the default content type. */
  lemma CommitStep(s: Store, endpoint: string, c: string, n: string, refs: seq<BlockRef>, blocks: seq<Block>)
    requires c in s.containers && Resolve(s, c, n, refs) == Some(blocks)
    ensures Step(s, endpoint, Entry(PutBlockListCall(c, n, refs), true)) == PutBlob(s, c, n, BlobState(blocks, DefaultContentType))
  {
  }

  /** Requests that can only touch staged blocks or the listing script. */
  predicate KeepsContainers(call: Call)
  {
    call.ListBlobsCall? || call.GetBlockListCall? || call.PutBlockCall?
    || call.BlobExistsCall? || call.ContainerExistsCall?
  }

  /** Failed requests and requests that do not write blobs leave the containers as they were. */
  lemma {:induction false} RunKeepsContainers(s: Store, endpoint: string, entries: seq<Entry>)
    requires forall i :: 0 <= i < |entries| ==> !entries[i].ok || KeepsContainers(entries[i].call)
    ensures Run(s, endpoint, entries).containers == s.containers
    decreases |entries|
  {
    if entries != [] {
      assert Step(s, endpoint, entries[0]).containers == s.containers;
      assert forall i :: 0 <= i < |entries| - 1 ==> entries[1..][i] == entries[i + 1];
      RunKeepsContainers(Step(s, endpoint, entries[0]), endpoint, entries[1..]);
    }
  }

  // ---------------------------------------------------------------------------
  // Logs that follow a plan

  /** Log entries of successful requests. */
  function OkEntries(calls: seq<Call>): (entries: seq<Entry>)
    ensures |entries| == |calls| && forall i :: 0 <= i < |calls| ==> entries[i] == Entry(calls[i], true)
  {
    seq(|calls|, i requires 0 <= i < |calls| => Entry(calls[i], true))
  }

  lemma OkEntriesSnoc(calls: seq<Call>, m: nat)
    requires m < |calls|
    ensures OkEntries(calls[..m + 1]) == OkEntries(calls[..m]) + [Entry(calls[m], true)]
  {
  }

  lemma OkEntriesAppend(a: seq<Call>, b: seq<Call>)
    ensures OkEntries(a + b) == OkEntries(a) + OkEntries(b)
  {
  }

  /**
   * The log of an attempt to carry out `plan`, one request after the other, stopping at the first
   * failure: the planned requests in order, all of them successful, or all but the last, which
   * failed.
   */
  predicate Attempted(entries: seq<Entry>, plan: seq<Call>, succeeded: bool)
  {
    (if succeeded then |entries| == |plan| else 1 <= |entries| <= |plan|)
    && forall k :: 0 <= k < |entries| ==> entries[k] == Entry(plan[k], succeeded || k < |entries| - 1)
  }

  /** A successful attempt is exactly the plan's requests, each successful. */
  lemma AttemptedOk(entries: seq<Entry>, plan: seq<Call>)
    ensures Attempted(entries, plan, true) <==> entries == OkEntries(plan)
  {
  }

  /** A plan whose first `m` requests succeed and whose next one fails. */
  lemma AttemptedFail(plan: seq<Call>, m: nat)
    requires m < |plan|
    ensures Attempted(OkEntries(plan[..m]) + [Entry(plan[m], false)], plan, false)
  {
  }

  /** A successful attempt at one plan followed by an attempt at another is an attempt at both. */
  lemma AttemptedSeq(e1: seq<Entry>, p1: seq<Call>, e2: seq<Entry>, p2: seq<Call>, succeeded: bool)
    requires Attempted(e1, p1, true) && Attempted(e2, p2, succeeded)
    ensures Attempted(e1 + e2, p1 + p2, succeeded)
  {
    var e, p := e1 + e2, p1 + p2;
    forall k | 0 <= k < |e| ensures e[k] == Entry(p[k], succeeded || k < |e| - 1) {
      if k >= |e1| {
        assert e[k] == e2[k - |e1|] && p[k] == p2[k - |e1|];
      }
    }
  }

  /** A failed attempt at a plan is a failed attempt at any longer plan. */
  lemma AttemptedStop(e: seq<Entry>, p1: seq<Call>, p2: seq<Call>)
    requires Attempted(e, p1, false)
    ensures Attempted(e, p1 + p2, false)
  {
    assert forall k :: 0 <= k < |e| ==> (p1 + p2)[k] == p1[k];
  }

  /** A successful attempt at the first `m` requests, and one more request. */
  lemma AttemptedSnoc(entries: seq<Entry>, plan: seq<Call>, m: nat, ok: bool)
    requires m < |plan| && Attempted(entries, plan[..m], true)
    ensures ok ==> Attempted(entries + [Entry(plan[m], ok)], plan[..m + 1], true)
    ensures !ok ==> Attempted(entries + [Entry(plan[m], ok)], plan, false)
  {
  }

  /** `log` starts with `log0`: requests were only added. */
  predicate Extends(log0: seq<Entry>, log: seq<Entry>)
  {
    |log| >= |log0| && log[..|log0|] == log0
  }

  /** The entries added to `log0`. */
  function Since(log0: seq<Entry>, log: seq<Entry>): seq<Entry>
    requires Extends(log0, log)
  {
    log[|log0|..]
  }

  /** Extending a log by one entry extends what was added since, and the store it leads to, by that entry. */
  lemma ExtendOne(s0: Store, endpoint: string, log0: seq<Entry>, log: seq<Entry>, e: Entry)
    requires Extends(log0, log)
    ensures Extends(log0, log + [e]) && Since(log0, log + [e]) == Since(log0, log) + [e]
    ensures Run(s0, endpoint, Since(log0, log + [e])) == Step(Run(s0, endpoint, Since(log0, log)), endpoint, e)
  {
    assert (log + [e])[..|log0|] == log[..|log0|];
    assert (log + [e])[|log0|..] == log[|log0|..] + [e];
    RunSnoc(s0, endpoint, Since(log0, log), e);
  }

  /** Two extensions in a row are one extension, and the store follows both. */
  lemma ExtendTwice(s0: Store, endpoint: string, log0: seq<Entry>, log1: seq<Entry>, log2: seq<Entry>)
    requires Extends(log0, log1) && Extends(log1, log2)
    ensures Extends(log0, log2) && Since(log0, log2) == Since(log0, log1) + Since(log1, log2)
    ensures Run(s0, endpoint, Since(log0, log2)) == Run(Run(s0, endpoint, Since(log0, log1)), endpoint, Since(log1, log2))
  {
    assert log2[..|log0|] == log2[..|log1|][..|log0|];
    assert log2[|log0|..] == log2[|log0|..|log1|] + log2[|log1|..];
    assert log2[|log0|..|log1|] == log1[|log0|..];
    RunAppend(s0, endpoint, Since(log0, log1), Since(log1, log2));
  }

  /**
   * One more request of a plan whose first `m` requests succeeded: its entry extends the log, the
   * store follows it, and the log is either the first `m + 1` requests or a failed attempt.
   */
  lemma Advance(s0: Store, endpoint: string, log0: seq<Entry>, log: seq<Entry>, plan: seq<Call>, m: nat, e: Entry)
    requires Extends(log0, log) && m < |plan| && Attempted(Since(log0, log), plan[..m], true) && e.call == plan[m]
    ensures Extends(log0, log + [e])
    ensures Run(s0, endpoint, Since(log0, log + [e])) == Step(Run(s0, endpoint, Since(log0, log)), endpoint, e)
    ensures e.ok ==> Attempted(Since(log0, log + [e]), plan[..m + 1], true)
    ensures !e.ok ==> Attempted(Since(log0, log + [e]), plan, false)
  {
    ExtendOne(s0, endpoint, log0, log, e);
    AttemptedSnoc(Since(log0, log), plan, m, e.ok);
  }

  /**
   * An attempt at the next `k` requests of a plan whose first `m` succeeded: the store follows both
   * parts, and the log is either the first `m + k` requests or a failed attempt.
   */
  lemma AdvancePart(s0: Store, endpoint: string, log0: seq<Entry>, log1: seq<Entry>, log2: seq<Entry>,
                    plan: seq<Call>, m: nat, k: nat, succeeded: bool)
    requires Extends(log0, log1) && Extends(log1, log2) && m + k <= |plan|
    requires Attempted(Since(log0, log1), plan[..m], true) && Attempted(Since(log1, log2), plan[m..m + k], succeeded)
    ensures Extends(log0, log2)
    ensures Run(s0, endpoint, Since(log0, log2)) == Run(Run(s0, endpoint, Since(log0, log1)), endpoint, Since(log1, log2))
    ensures succeeded ==> Attempted(Since(log0, log2), plan[..m + k], true)
    ensures !succeeded ==> Attempted(Since(log0, log2), plan, false)
  {
    ExtendTwice(s0, endpoint, log0, log1, log2);
    assert plan[..m + k] == plan[..m] + plan[m..m + k];
    AttemptedSeq(Since(log0, log1), plan[..m], Since(log1, log2), plan[m..m + k], succeeded);
    if !succeeded {
      assert plan == plan[..m + k] + plan[m + k..];
      AttemptedStop(Since(log0, log2), plan[..m + k], plan[m + k..]);
    }
  }

  // ---------------------------------------------------------------------------
  // The service

  class BlobService {
    /** The service's base URL, under which `BlobURL` addresses blobs. */
    const endpoint: string
    /** Log indices of the requests that fail for reasons outside the model. */
    const faults: set<nat>
    var store: Store
    var log: seq<Entry>

    constructor (endpoint: string, faults: set<nat>, store: Store)
      ensures this.endpoint == endpoint && this.faults == faults
      ensures this.store == store && log == []
    {
      this.endpoint := endpoint;
      this.faults := faults;
      this.store := store;
      log := [];
    }

    /** Whether the next request succeeds: not faulted, and enabled on the current store. */
    predicate Accepts(call: Call)
      reads this
    {
      |log| !in faults && Enabled(store, endpoint, call)
    }

    /** Records `call` and applies it; shared by every request. */
    method Perform(call: Call) returns (ok: bool)
      modifies this
      ensures ok == old(Accepts(call))
      ensures log == old(log) + [Entry(call, ok)]
      ensures store == Step(old(store), endpoint, Entry(call, ok))
    {
      ok := Accepts(call);
      if ok {
        store := Effect(store, endpoint, call);
      }
      log := log + [Entry(call, ok)];
    }

    function URL(container: string, blob: string): string
    {
      BlobURL(endpoint, container, blob)
    }

    method ListBlobs(container: string, params: ListBlobsParameters) returns (r: Result<BlobListResponse>)
      modifies this
      ensures var call := ListBlobsCall(container, params);
        log == old(log) + [Entry(call, r.Success?)] && r.Success? == old(Accepts(call))
        && store == Step(old(store), endpoint, Entry(call, r.Success?))
      ensures r.Success? ==> r.value == old(store.listing[0]) && store.listing == old(store.listing[1..])
      ensures r.Success? ==> container in old(store.containers) && PageFits(old(store), container, params, r.value)
    {
      var page := if |store.listing| > 0 then store.listing[0] else BlobListResponse([], [], "");
      var ok := Perform(ListBlobsCall(container, params));
      r := if ok then Success(page) else Failure("ListBlobs failed");
    }

    /** The IDs of the blob's committed blocks; the uncommitted list is not modelled. */
    method GetBlockList(container: string, blob: string) returns (r: Result<seq<string>>)
      modifies this
      ensures var call := GetBlockListCall(container, blob);
        log == old(log) + [Entry(call, r.Success?)] && r.Success? == old(Accepts(call))
        && store == old(store)
      ensures r.Success? ==> r.value == Ids(CommittedOf(store, container, blob))
    {
      var ids := Ids(CommittedOf(store, container, blob));
      var ok := Perform(GetBlockListCall(container, blob));
      r := if ok then Success(ids) else Failure("GetBlockList failed");
    }

    method PutBlock(container: string, blob: string, id: string, data: seq<byte>) returns (err: Option<string>)
      modifies this
      ensures var call := PutBlockCall(container, blob, id, data);
        log == old(log) + [Entry(call, err.None?)] && err.None? == old(Accepts(call))
        && store == Step(old(store), endpoint, Entry(call, err.None?))
    {
      var ok := Perform(PutBlockCall(container, blob, id, data));
      err := if ok then None else Some("PutBlock failed");
    }

    method PutBlockList(container: string, blob: string, refs: seq<BlockRef>) returns (err: Option<string>)
      modifies this
      ensures var call := PutBlockListCall(container, blob, refs);
        log == old(log) + [Entry(call, err.None?)] && err.None? == old(Accepts(call))
        && store == Step(old(store), endpoint, Entry(call, err.None?))
    {
      var ok := Perform(PutBlockListCall(container, blob, refs));
      err := if ok then None else Some("PutBlockList failed");
    }

    method CopyBlob(container: string, blob: string, sourceURL: string) returns (err: Option<string>)
      modifies this
      ensures var call := CopyBlobCall(container, blob, sourceURL);
        log == old(log) + [Entry(call, err.None?)] && err.None? == old(Accepts(call))
        && store == Step(old(store), endpoint, Entry(call, err.None?))
    {
      var ok := Perform(CopyBlobCall(container, blob, sourceURL));
      err := if ok then None else Some("CopyBlob failed");
    }

    method DeleteBlob(container: string, blob: string) returns (err: Option<string>)
      modifies this
      ensures var call := DeleteBlobCall(container, blob);
        log == old(log) + [Entry(call, err.None?)] && err.None? == old(Accepts(call))
        && store == Step(old(store), endpoint, Entry(call, err.None?))
    {
      var ok := Perform(DeleteBlobCall(container, blob));
      err := if ok then None else Some("DeleteBlob failed");
    }

    method DeleteBlobIfExists(container: string, blob: string) returns (err: Option<string>)
      modifies this
      ensures var call := DeleteBlobIfExistsCall(container, blob);
        log == old(log) + [Entry(call, err.None?)] && err.None? == old(Accepts(call))
        && store == Step(old(store), endpoint, Entry(call, err.None?))
    {
      var ok := Perform(DeleteBlobIfExistsCall(container, blob));
      err := if ok then None else Some("DeleteBlobIfExists failed");
    }

    method DeleteContainer(container: string) returns (err: Option<string>)
      modifies this
      ensures var call := DeleteContainerCall(container);
        log == old(log) + [Entry(call, err.None?)] && err.None? == old(Accepts(call))
        && store == Step(old(store), endpoint, Entry(call, err.None?))
    {
      var ok := Perform(DeleteContainerCall(container));
      err := if ok then None else Some("DeleteContainer failed");
    }

    method DeleteContainerIfExists(container: string) returns (err: Option<string>)
      modifies this
      ensures var call := DeleteContainerIfExistsCall(container);
        log == old(log) + [Entry(call, err.None?)] && err.None? == old(Accepts(call))
        && store == Step(old(store), endpoint, Entry(call, err.None?))
    {
      var ok := Perform(DeleteContainerIfExistsCall(container));
      err := if ok then None else Some("DeleteContainerIfExists failed");
    }

    method CreateContainerIfNotExists(container: string) returns (err: Option<string>)
      modifies this
      ensures var call := CreateContainerIfNotExistsCall(container);
        log == old(log) + [Entry(call, err.None?)] && err.None? == old(Accepts(call))
        && store == Step(old(store), endpoint, Entry(call, err.None?))
    {
      var ok := Perform(CreateContainerIfNotExistsCall(container));
      err := if ok then None else Some("CreateContainerIfNotExists failed");
    }

    method BlobExists(container: string, blob: string) returns (r: Result<bool>)
      modifies this
      ensures var call := BlobExistsCall(container, blob);
        log == old(log) + [Entry(call, r.Success?)] && r.Success? == old(Accepts(call))
        && store == old(store)
      ensures r.Success? ==> r.value == BlobIn(store, container, blob)
    {
      var present := BlobIn(store, container, blob);
      var ok := Perform(BlobExistsCall(container, blob));
      r := if ok then Success(present) else Failure("BlobExists failed");
    }

    method ContainerExists(container: string) returns (r: Result<bool>)
      modifies this
      ensures var call := ContainerExistsCall(container);
        log == old(log) + [Entry(call, r.Success?)] && r.Success? == old(Accepts(call))
        && store == old(store)
      ensures r.Success? ==> r.value == (container in store.containers)
    {
      var present := container in store.containers;
      var ok := Perform(ContainerExistsCall(container));
      r := if ok then Success(present) else Failure("ContainerExists failed");
    }

    method CreateBlockBlob(container: string, blob: string, contentType: string) returns (err: Option<string>)
      modifies this
      ensures var call := CreateBlockBlobCall(container, blob, contentType);
        log == old(log) + [Entry(call, err.None?)] && err.None? == old(Accepts(call))
        && store == Step(old(store), endpoint, Entry(call, err.None?))
    {
      var ok := Perform(CreateBlockBlobCall(container, blob, contentType));
      err := if ok then None else Some("CreateBlockBlobFromReader failed");
    }

    method SetBlobProperties(container: string, blob: string, contentType: string) returns (err: Option<string>)
      modifies this
      ensures var call := SetBlobPropertiesCall(container, blob, contentType);
        log == old(log) + [Entry(call, err.None?)] && err.None? == old(Accepts(call))
        && store == Step(old(store), endpoint, Entry(call, err.None?))
    {
      var ok := Perform(SetBlobPropertiesCall(container, blob, contentType));
      err := if ok then None else Some("SetBlobProperties failed");
    }
  }
}
