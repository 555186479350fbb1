/**
 * The block-staged append of `AzureFile.Write` (lib/azure.go), as the sequence of requests it
 * makes and the store it leaves behind.
 *
 * A write of `b` reads the blob's committed block list (IDs `ids`), stages `b` in chunks of at most
 * `MaxBlobBlockSize` bytes as blocks numbered `|ids|`, `|ids| + 1`, ..., and commits the old blocks
 * followed by the new ones. The requests stop at the first one that fails.
 */
module BlockWrite {

  import opened Common
  import opened Storage
  import opened BlockIds

  /** The SDK's `storage.MaxBlobBlockSize`: 4 MiB. */
  const MaxBlobBlockSize: nat := 4 * 1024 * 1024

  // ---------------------------------------------------------------------------
  // Chunks

  /** The pieces successive reads of `size` bytes take from `b`. */
  function Chunks(b: seq<byte>, size: nat): seq<seq<byte>>
    requires size > 0
    decreases |b|
  {
    if |b| == 0 then []
    else if |b| <= size then [b]
    else [b[..size]] + Chunks(b[size..], size)
  }

  function Flatten(chunks: seq<seq<byte>>): seq<byte>
  {
    if chunks == [] then [] else chunks[0] + Flatten(chunks[1..])
  }

  /** The chunks are contiguous, in order, and concatenate back to the input. */
  lemma {:induction false} FlattenChunks(b: seq<byte>, size: nat)
    requires size > 0
    ensures Flatten(Chunks(b, size)) == b
    decreases |b|
  {
    if |b| > size {
      var rest := Chunks(b[size..], size);
      FlattenChunks(b[size..], size);
      assert ([b[..size]] + rest)[1..] == rest;
      assert b == b[..size] + b[size..];
    } else if |b| > 0 {
      assert [b][1..] == [];
    }
  }

  /** Every chunk holds between 1 and `size` bytes; there are none exactly when `b` is empty. */
  lemma {:induction false} ChunkSizes(b: seq<byte>, size: nat)
    requires size > 0
    ensures Chunks(b, size) == [] <==> |b| == 0
    ensures forall j :: 0 <= j < |Chunks(b, size)| ==> 0 < |Chunks(b, size)[j]| <= size
    decreases |b|
  {
    if |b| > size {
      ChunkSizes(b[size..], size);
      var cs := Chunks(b, size);
      assert forall j :: 1 <= j < |cs| ==> cs[j] == Chunks(b[size..], size)[j - 1];
    }
  }

  /** One read: the next chunk is the next `Min(size, remaining)` bytes. */
  lemma ChunksStep(b: seq<byte>, pos: nat, size: nat)
    requires size > 0 && pos < |b|
    ensures var m := Min(size, |b| - pos);
      Chunks(b[pos..], size) == [b[pos..pos + m]] + Chunks(b[pos + m..], size)
  {
    var rest := b[pos..];
    if |rest| > size {
      assert rest[..size] == b[pos..pos + size];
      assert rest[size..] == b[pos + size..];
    } else {
      assert rest == b[pos..|b|];
      assert b[|b|..] == [];
    }
  }

  /** The read at `pos`, when the reads so far took the first `k` chunks: it takes chunk `k`. */
  lemma ChunksNext(b: seq<byte>, pos: nat, chunks: seq<seq<byte>>, k: nat)
    requires pos < |b| && k <= |chunks| && Chunks(b[pos..], MaxBlobBlockSize) == chunks[k..]
    ensures var m := Min(MaxBlobBlockSize, |b| - pos);
      k < |chunks| && chunks[k] == b[pos..pos + m] && Chunks(b[pos + m..], MaxBlobBlockSize) == chunks[k + 1..]
  {
    ChunksStep(b, pos, MaxBlobBlockSize);
    assert chunks[k..][1..] == chunks[k + 1..];
  }

  // ---------------------------------------------------------------------------
  // Blocks and block lists

  /** The IDs of `k` new blocks numbered from `n0`. */
  function NewIds(n0: nat, k: nat): (ids: seq<string>)
    ensures |ids| == k && forall j :: 0 <= j < k ==> ids[j] == BlockId(n0 + j)
  {
    seq(k, j requires 0 <= j < k => BlockId(n0 + j))
  }

  /** The new block IDs are pairwise distinct and carry the counters `n0`, `n0 + 1`, ... */
  lemma NewIdsNumbered(n0: nat, k: nat)
    ensures forall j :: 0 <= j < k ==> BlockNumber(NewIds(n0, k)[j]) == n0 + j
    ensures Distinct(NewIds(n0, k))
  {
    var ids := NewIds(n0, k);
    forall j | 0 <= j < k ensures BlockNumber(ids[j]) == n0 + j {
      BlockNumberOfId(n0 + j);
    }
    forall i, j | 0 <= i < j < k ensures ids[i] != ids[j] {
      BlockIdInjective(n0 + i, n0 + j);
    }
  }

  /** The blocks a write adds: each chunk under its new ID. */
  function NewBlocks(ids: seq<string>, chunks: seq<seq<byte>>): (blocks: seq<Block>)
    requires |ids| == |chunks|
    ensures |blocks| == |chunks| && forall j :: 0 <= j < |chunks| ==> blocks[j] == Block(ids[j], chunks[j])
  {
    seq(|chunks|, j requires 0 <= j < |chunks| => Block(ids[j], chunks[j]))
  }

  /** The list `Write` commits: the old blocks as committed, then the new ones as uncommitted. */
  function AmendList(ids: seq<string>, newIds: seq<string>): (refs: seq<BlockRef>)
    ensures |refs| == |ids| + |newIds|
    ensures forall i :: 0 <= i < |ids| ==> refs[i] == BlockRef(ids[i], Committed)
    ensures forall j :: |ids| <= j < |ids| + |newIds| ==> refs[j] == BlockRef(newIds[j - |ids|], Uncommitted)
  {
    seq(|ids|, i requires 0 <= i < |ids| => BlockRef(ids[i], Committed))
    + seq(|newIds|, j requires 0 <= j < |newIds| => BlockRef(newIds[j], Uncommitted))
  }

  /** A block list written only by `Write`: block `k` is named `BlockId(k)`. */
  predicate WellNumbered(blocks: seq<Block>)
  {
    forall k :: 0 <= k < |blocks| ==> blocks[k].id == BlockId(k)
  }

  /** A write keeps a well-numbered block list well numbered, and such a list has distinct IDs. */
  lemma WellNumberedAppend(committed: seq<Block>, chunks: seq<seq<byte>>)
    requires WellNumbered(committed)
    ensures DistinctIds(committed)
    ensures WellNumbered(committed + NewBlocks(NewIds(|committed|, |chunks|), chunks))
  {
    forall i, j | 0 <= i < j < |committed| ensures committed[i].id != committed[j].id {
      BlockIdInjective(i, j);
    }
  }

  lemma {:induction false} ContentNewBlocks(ids: seq<string>, chunks: seq<seq<byte>>)
    requires |ids| == |chunks|
    ensures Content(NewBlocks(ids, chunks)) == Flatten(chunks)
    decreases |chunks|
  {
    if chunks != [] {
      ContentNewBlocks(ids[1..], chunks[1..]);
      assert NewBlocks(ids, chunks)[1..] == NewBlocks(ids[1..], chunks[1..]);
    }
  }

  // ---------------------------------------------------------------------------
  // The requests

  function StageCalls(c: string, n: string, ids: seq<string>, chunks: seq<seq<byte>>): (calls: seq<Call>)
    requires |ids| == |chunks|
    ensures |calls| == |chunks|
    ensures forall j :: 0 <= j < |chunks| ==> calls[j] == PutBlockCall(c, n, ids[j], chunks[j])
  {
    seq(|chunks|, j requires 0 <= j < |chunks| => PutBlockCall(c, n, ids[j], chunks[j]))
  }

  /** Staging request `k` puts chunk `k` under block number `n0 + k`. */
  lemma StageAt(c: string, n: string, n0: nat, chunks: seq<seq<byte>>, k: nat)
    requires k < |chunks|
    ensures StageCalls(c, n, NewIds(n0, |chunks|), chunks)[k] == PutBlockCall(c, n, BlockId(n0 + k), chunks[k])
  {
  }

  /** Every request a write of `b` makes when nothing fails, in order. */
  function WritePlan(c: string, n: string, ids: seq<string>, b: seq<byte>): (plan: seq<Call>)
    ensures |plan| == |Chunks(b, MaxBlobBlockSize)| + 2
  {
    var chunks := Chunks(b, MaxBlobBlockSize);
    var newIds := NewIds(|ids|, |chunks|);
    [GetBlockListCall(c, n)] + StageCalls(c, n, newIds, chunks)
    + [PutBlockListCall(c, n, AmendList(ids, newIds))]
  }

  lemma PlanAt(c: string, n: string, ids: seq<string>, b: seq<byte>)
    ensures var chunks := Chunks(b, MaxBlobBlockSize);
      var plan := WritePlan(c, n, ids, b);
      plan[0] == GetBlockListCall(c, n)
      && (forall j :: 1 <= j < |plan| - 1 ==>
            plan[j].PutBlockCall? && plan[j].container == c && plan[j].blob == n && plan[j].data == chunks[j - 1])
      && plan[|plan| - 1] == PutBlockListCall(c, n, AmendList(ids, NewIds(|ids|, |chunks|)))
  {
    var chunks := Chunks(b, MaxBlobBlockSize);
    var newIds := NewIds(|ids|, |chunks|);
    var stages := StageCalls(c, n, newIds, chunks);
    var plan := WritePlan(c, n, ids, b);
    assert plan == [GetBlockListCall(c, n)] + stages + [PutBlockListCall(c, n, AmendList(ids, newIds))];
    forall j | 1 <= j < |plan| - 1
      ensures plan[j].PutBlockCall? && plan[j].container == c && plan[j].blob == n && plan[j].data == chunks[j - 1]
    {
      MiddleAt(GetBlockListCall(c, n), stages, PutBlockListCall(c, n, AmendList(ids, newIds)), j);
    }
  }

  /** Where the parts of a write sit in its plan. */
  lemma WritePlanParts(c: string, n: string, ids: seq<string>, b: seq<byte>)
    ensures var chunks := Chunks(b, MaxBlobBlockSize);
      var plan := WritePlan(c, n, ids, b);
      var newIds := NewIds(|ids|, |chunks|);
      plan[..0] == [] && plan[0] == GetBlockListCall(c, n)
      && plan[1..1 + |chunks|] == StageCalls(c, n, newIds, chunks)
      && plan[1 + |chunks|] == PutBlockListCall(c, n, AmendList(ids, newIds))
      && plan[..|plan|] == plan
  {
    var chunks := Chunks(b, MaxBlobBlockSize);
    var newIds := NewIds(|ids|, |chunks|);
    var stages := StageCalls(c, n, newIds, chunks);
    var plan := WritePlan(c, n, ids, b);
    assert plan == [GetBlockListCall(c, n)] + stages + [PutBlockListCall(c, n, AmendList(ids, newIds))];
    assert plan[1..1 + |chunks|] == stages;
  }

  /** Staging one more block appends it, uncommitted, to the list to commit. */
  lemma AmendListSnoc(ids: seq<string>, n0: nat, k: nat)
    ensures AmendList(ids, NewIds(n0, k + 1)) == AmendList(ids, NewIds(n0, k)) + [BlockRef(BlockId(n0 + k), Uncommitted)]
  {
    var longer := AmendList(ids, NewIds(n0, k + 1));
    var shorter := AmendList(ids, NewIds(n0, k)) + [BlockRef(BlockId(n0 + k), Uncommitted)];
    forall i | 0 <= i < |longer| ensures longer[i] == shorter[i] {
      if i >= |ids| {
        assert longer[i] == BlockRef(NewIds(n0, k + 1)[i - |ids|], Uncommitted);
      }
    }
  }

  /**
   * The state of the staging loop after `k` chunks: chunk `k` starts at `pos`, the log since
   * `log0` is the first `k` staging requests, all successful, and the store followed the log.
   */
  predicate Staged(b: seq<byte>, pos: nat, k: nat, c: string, n: string, ids: seq<string>,
                   s0: Store, endpoint: string, log0: seq<Entry>, log: seq<Entry>, store: Store)
  {
    var chunks := Chunks(b, MaxBlobBlockSize);
    pos <= |b| && k <= |chunks| && Chunks(b[pos..], MaxBlobBlockSize) == chunks[k..]
    && Extends(log0, log)
    && Attempted(Since(log0, log), StageCalls(c, n, NewIds(|ids|, |chunks|), chunks)[..k], true)
    && store == Run(s0, endpoint, Since(log0, log))
  }

  /** Before the staging loop nothing is staged. */
  lemma StagedStart(b: seq<byte>, c: string, n: string, ids: seq<string>, s0: Store, endpoint: string, log0: seq<Entry>)
    ensures Staged(b, 0, 0, c, n, ids, s0, endpoint, log0, log0, s0)
  {
    assert b[0..] == b && Since(log0, log0) == [];
  }

  /** When the staging loop has consumed the input, every staging request succeeded. */
  lemma StagedDone(b: seq<byte>, k: nat, c: string, n: string, ids: seq<string>,
                   s0: Store, endpoint: string, log0: seq<Entry>, log: seq<Entry>, store: Store)
    requires Staged(b, |b|, k, c, n, ids, s0, endpoint, log0, log, store)
    ensures var chunks := Chunks(b, MaxBlobBlockSize);
      k == |chunks| && Attempted(Since(log0, log), StageCalls(c, n, NewIds(|ids|, |chunks|), chunks), true)
  {
    var chunks := Chunks(b, MaxBlobBlockSize);
    assert b[|b|..] == [];
    assert StageCalls(c, n, NewIds(|ids|, |chunks|), chunks)[..k] == StageCalls(c, n, NewIds(|ids|, |chunks|), chunks);
  }

  /**
   * One turn of the staging loop: the next chunk starts at `pos` and takes up to
   * `MaxBlobBlockSize` bytes, its request is the next one of the plan under the next block ID;
   * on success the loop moves on by one chunk and the block joins the list to commit, on failure
   * the log is a failed attempt at the whole plan.
   */
  lemma StageNext(b: seq<byte>, pos: nat, k: nat, c: string, n: string, ids: seq<string>,
                  s0: Store, endpoint: string, log0: seq<Entry>, log: seq<Entry>, store: Store,
                  m: nat, id: string, ok: bool)
    requires pos < |b| && Staged(b, pos, k, c, n, ids, s0, endpoint, log0, log, store)
    requires m == Min(MaxBlobBlockSize, |b| - pos) && id == BlockId(|ids| + k)
    ensures var e := Entry(PutBlockCall(c, n, id, b[pos..pos + m]), ok);
      (ok ==> Staged(b, pos + m, k + 1, c, n, ids, s0, endpoint, log0, log + [e], Step(store, endpoint, e))
              && AmendList(ids, NewIds(|ids|, k + 1)) == AmendList(ids, NewIds(|ids|, k)) + [BlockRef(id, Uncommitted)])
      && (!ok ==> var chunks := Chunks(b, MaxBlobBlockSize);
                  Extends(log0, log + [e]) && Step(store, endpoint, e) == Run(s0, endpoint, Since(log0, log + [e]))
                  && Attempted(Since(log0, log + [e]), StageCalls(c, n, NewIds(|ids|, |chunks|), chunks), false))
  {
    var chunks := Chunks(b, MaxBlobBlockSize);
    var stages := StageCalls(c, n, NewIds(|ids|, |chunks|), chunks);
    var e := Entry(PutBlockCall(c, n, id, b[pos..pos + m]), ok);
    ChunksNext(b, pos, chunks, k);
    StageAt(c, n, |ids|, chunks, k);
    Advance(s0, endpoint, log0, log, stages, k, e);
    if ok {
      AmendListSnoc(ids, |ids|, k);
      assert pos + m <= |b| && k + 1 <= |chunks|;
      assert Chunks(b[pos + m..], MaxBlobBlockSize) == chunks[k + 1..];
      assert Extends(log0, log + [e]);
      assert Attempted(Since(log0, log + [e]), stages[..k + 1], true);
      assert Step(store, endpoint, e) == Run(s0, endpoint, Since(log0, log + [e]));
      assert Staged(b, pos + m, k + 1, c, n, ids, s0, endpoint, log0, log + [e], Step(store, endpoint, e));
    }
  }

  /** Only the last request of a write commits. */
  lemma PlanCommitsLast(c: string, n: string, ids: seq<string>, b: seq<byte>)
    ensures var plan := WritePlan(c, n, ids, b);
      forall k :: 0 <= k < |plan| - 1 ==> !plan[k].PutBlockListCall?
  {
    PlanAt(c, n, ids, b);
  }

  /** Once a block fails to stage, the write fails and the block list is never committed. */
  lemma NoCommitAfterFailedStage(entries: seq<Entry>, c: string, n: string, ids: seq<string>, b: seq<byte>,
                                 succeeded: bool)
    requires Attempted(entries, WritePlan(c, n, ids, b), succeeded)
    requires exists i :: 0 <= i < |entries| && entries[i].call.PutBlockCall? && !entries[i].ok
    ensures !succeeded
    ensures forall i :: 0 <= i < |entries| ==> !entries[i].call.PutBlockListCall?
  {
    var plan := WritePlan(c, n, ids, b);
    var i :| 0 <= i < |entries| && entries[i].call.PutBlockCall? && !entries[i].ok;
    PlanAt(c, n, ids, b);
    PlanCommitsLast(c, n, ids, b);
  }

  // ---------------------------------------------------------------------------
  // The store after a write

  /** The staged blocks after staging `chunks` under `ids`. */
  function StagedAfter(staged: map<BlockKey, seq<byte>>, c: string, n: string, ids: seq<string>,
                       chunks: seq<seq<byte>>): map<BlockKey, seq<byte>>
    requires |ids| == |chunks|
    decreases |chunks|
  {
    if chunks == [] then staged
    else
      var k := |chunks| - 1;
      StagedAfter(staged, c, n, ids[..k], chunks[..k])[BlockKey(c, n, ids[k]) := chunks[k]]
  }

  /** After staging under distinct IDs, each new block can be found under its own ID. */
  lemma {:induction false} StagedAfterHolds(staged: map<BlockKey, seq<byte>>, c: string, n: string,
                                            ids: seq<string>, chunks: seq<seq<byte>>, j: nat)
    requires |ids| == |chunks| && Distinct(ids) && j < |chunks|
    ensures var st := StagedAfter(staged, c, n, ids, chunks);
      BlockKey(c, n, ids[j]) in st && st[BlockKey(c, n, ids[j])] == chunks[j]
    decreases |chunks|
  {
    var k := |chunks| - 1;
    if j < k {
      StagedAfterHolds(staged, c, n, ids[..k], chunks[..k], j);
      assert ids[j] != ids[k];
      assert ids[..k][j] == ids[j] && chunks[..k][j] == chunks[j];
    }
  }

  /** Successful stage requests change only the staged blocks. */
  lemma {:induction false} RunStages(s: Store, endpoint: string, c: string, n: string, ids: seq<string>,
                                     chunks: seq<seq<byte>>)
    requires c in s.containers && |ids| == |chunks|
    ensures Run(s, endpoint, OkEntries(StageCalls(c, n, ids, chunks)))
      == s.(staged := StagedAfter(s.staged, c, n, ids, chunks))
    decreases |chunks|
  {
    if chunks != [] {
      var k := |chunks| - 1;
      var calls := StageCalls(c, n, ids, chunks);
      assert calls[..k] == StageCalls(c, n, ids[..k], chunks[..k]);
      OkEntriesSnoc(calls, k);
      assert calls[..k + 1] == calls;
      RunStages(s, endpoint, c, n, ids[..k], chunks[..k]);
      RunSnoc(s, endpoint, OkEntries(calls[..k]), Entry(calls[k], true));
    }
  }

  /** A block list resolves to `want` when each reference resolves to the matching block. */
  lemma ResolveEach(s: Store, c: string, n: string, refs: seq<BlockRef>, want: seq<Block>)
    requires |refs| == |want|
    requires forall i :: 0 <= i < |refs| ==> ResolveRef(s, c, n, refs[i]) == Some(want[i])
    ensures Resolve(s, c, n, refs) == Some(want)
  {
    var r := Resolve(s, c, n, refs);
    assert r.Some?;
    assert r.value == want;
  }

  /** A reference to an old block of the list `Write` sends resolves to that block. */
  lemma ResolveOldRef(t: Store, c: string, n: string, ids: seq<string>, i: nat)
    requires DistinctIds(CommittedOf(t, c, n)) && i < |CommittedOf(t, c, n)|
    ensures var committed := CommittedOf(t, c, n);
      ResolveRef(t, c, n, AmendList(Ids(committed), ids)[i]) == Some(committed[i])
  {
    var committed := CommittedOf(t, c, n);
    assert AmendList(Ids(committed), ids)[i] == BlockRef(committed[i].id, Committed);
    FindDistinct(committed, i);
  }

  /** The chunks `chunks` are staged for blob `n` of container `c`, each under its ID in `ids`. */
  predicate StagedAs(t: Store, c: string, n: string, ids: seq<string>, chunks: seq<seq<byte>>)
    requires |ids| == |chunks|
  {
    forall j :: 0 <= j < |ids| ==> BlockKey(c, n, ids[j]) in t.staged && t.staged[BlockKey(c, n, ids[j])] == chunks[j]
  }

  /** After staging under distinct IDs, every new chunk is staged under its own ID. */
  lemma StagedAfterStaged(s: Store, c: string, n: string, ids: seq<string>, chunks: seq<seq<byte>>)
    requires |ids| == |chunks| && Distinct(ids)
    ensures StagedAs(s.(staged := StagedAfter(s.staged, c, n, ids, chunks)), c, n, ids, chunks)
  {
    forall j | 0 <= j < |ids| {
      StagedAfterHolds(s.staged, c, n, ids, chunks, j);
    }
  }

  /** A reference to a new block of a list staged as `StagedAs` says resolves to its chunk. */
  lemma ResolveNewRef(t: Store, c: string, n: string, kept: seq<string>, ids: seq<string>, chunks: seq<seq<byte>>, i: nat)
    requires |ids| == |chunks| && StagedAs(t, c, n, ids, chunks) && |kept| <= i < |kept| + |ids|
    ensures ResolveRef(t, c, n, AmendList(kept, ids)[i]) == Some(Block(ids[i - |kept|], chunks[i - |kept|]))
  {
    assert AmendList(kept, ids)[i] == BlockRef(ids[i - |kept|], Uncommitted);
  }

  /** With the new chunks staged, the list `Write` sends resolves to the old blocks followed by the new ones. */
  lemma ResolveStagedList(t: Store, c: string, n: string, ids: seq<string>, chunks: seq<seq<byte>>)
    requires DistinctIds(CommittedOf(t, c, n)) && |ids| == |chunks| && StagedAs(t, c, n, ids, chunks)
    ensures var committed := CommittedOf(t, c, n);
      Resolve(t, c, n, AmendList(Ids(committed), ids)) == Some(committed + NewBlocks(ids, chunks))
  {
    var committed := CommittedOf(t, c, n);
    var refs := AmendList(Ids(committed), ids);
    var want := committed + NewBlocks(ids, chunks);
    var m := |committed|;
    assert |refs| == m + |ids| && |want| == m + |ids|;
    forall i | 0 <= i < m ensures ResolveRef(t, c, n, refs[i]) == Some(want[i]) {
      ResolveOldRef(t, c, n, ids, i);
    }
    forall i | m <= i < |refs| ensures ResolveRef(t, c, n, refs[i]) == Some(want[i]) {
      ResolveNewRef(t, c, n, Ids(committed), ids, chunks, i);
      assert want[i] == NewBlocks(ids, chunks)[i - m];
    }
    ResolveEach(t, c, n, refs, want);
  }

  /** The committed list `Write` sends resolves to the old blocks followed by the new ones. */
  lemma ResolveAmendList(s: Store, c: string, n: string, ids: seq<string>, chunks: seq<seq<byte>>)
    requires DistinctIds(CommittedOf(s, c, n)) && |ids| == |chunks| && Distinct(ids)
    ensures var committed := CommittedOf(s, c, n);
      var t := s.(staged := StagedAfter(s.staged, c, n, ids, chunks));
      Resolve(t, c, n, AmendList(Ids(committed), ids)) == Some(committed + NewBlocks(ids, chunks))
  {
    var t := s.(staged := StagedAfter(s.staged, c, n, ids, chunks));
    assert CommittedOf(t, c, n) == CommittedOf(s, c, n);
    StagedAfterStaged(s, c, n, ids, chunks);
    ResolveStagedList(t, c, n, ids, chunks);
  }

  /** The store after a write whose requests all succeed: the chunks staged, then the list committed. */
  lemma RunWritePlan(s: Store, endpoint: string, entries: seq<Entry>, c: string, n: string, ids: seq<string>, b: seq<byte>)
    requires c in s.containers && Attempted(entries, WritePlan(c, n, ids, b), true)
    ensures var chunks := Chunks(b, MaxBlobBlockSize);
      var newIds := NewIds(|ids|, |chunks|);
      var t := s.(staged := StagedAfter(s.staged, c, n, newIds, chunks));
      Run(s, endpoint, entries) == Step(t, endpoint, Entry(PutBlockListCall(c, n, AmendList(ids, newIds)), true))
  {
    AttemptedOk(entries, WritePlan(c, n, ids, b));
    var chunks := Chunks(b, MaxBlobBlockSize);
    var newIds := NewIds(|ids|, |chunks|);
    var plan := WritePlan(c, n, ids, b);
    var stages := StageCalls(c, n, newIds, chunks);
    var commit := PutBlockListCall(c, n, AmendList(ids, newIds));
    var query := GetBlockListCall(c, n);
    var first := [Entry(query, true)];
    assert plan == [query] + stages + [commit];
    OkEntriesAppend([query] + stages, [commit]);
    OkEntriesAppend([query], stages);
    assert OkEntries([query]) == first && OkEntries([commit]) == [Entry(commit, true)];
    assert entries == first + OkEntries(stages) + [Entry(commit, true)];
    RunAppend(s, endpoint, first, OkEntries(stages));
    RunReadOnly(s, endpoint, first[0]);
    RunStages(s, endpoint, c, n, newIds, chunks);
    RunSnoc(s, endpoint, first + OkEntries(stages), Entry(commit, true));
  }

  /**
   * A write whose requests all succeed commits the old blocks followed by the new ones, leaves the
   * blob with the default content type, and changes no other blob or container.
   */
  lemma WriteCommits(s: Store, endpoint: string, entries: seq<Entry>, c: string, n: string, b: seq<byte>)
    requires BlobIn(s, c, n) && DistinctIds(CommittedOf(s, c, n))
    requires Attempted(entries, WritePlan(c, n, Ids(CommittedOf(s, c, n)), b), true)
    ensures var committed := CommittedOf(s, c, n);
      var chunks := Chunks(b, MaxBlobBlockSize);
      var newIds := NewIds(|committed|, |chunks|);
      Run(s, endpoint, entries).containers
        == s.containers[c := s.containers[c][n := BlobState(committed + NewBlocks(newIds, chunks), DefaultContentType)]]
  {
    var committed := CommittedOf(s, c, n);
    var chunks := Chunks(b, MaxBlobBlockSize);
    var newIds := NewIds(|committed|, |chunks|);
    var t := s.(staged := StagedAfter(s.staged, c, n, newIds, chunks));
    RunWritePlan(s, endpoint, entries, c, n, Ids(committed), b);
    NewIdsNumbered(|committed|, |chunks|);
    ResolveAmendList(s, c, n, newIds, chunks);
    CommitStep(t, endpoint, c, n, AmendList(Ids(committed), newIds), committed + NewBlocks(newIds, chunks));
  }

  /**
   * A write whose requests all succeed appends `b` to the blob: its committed blocks become the old
   * ones followed by the new ones, its content becomes the old content followed by `b`, and no
   * other blob or container changes.
   */
  lemma WriteAppends(s: Store, endpoint: string, entries: seq<Entry>, c: string, n: string, b: seq<byte>)
    requires BlobIn(s, c, n) && DistinctIds(CommittedOf(s, c, n))
    requires Attempted(entries, WritePlan(c, n, Ids(CommittedOf(s, c, n)), b), true)
    ensures var committed := CommittedOf(s, c, n);
      var chunks := Chunks(b, MaxBlobBlockSize);
      var newIds := NewIds(|committed|, |chunks|);
      var after := Run(s, endpoint, entries).containers;
      after == s.containers[c := s.containers[c][n := BlobState(committed + NewBlocks(newIds, chunks), DefaultContentType)]]
      && Content(after[c][n].committed) == Content(committed) + b
  {
    var committed := CommittedOf(s, c, n);
    var chunks := Chunks(b, MaxBlobBlockSize);
    var newIds := NewIds(|committed|, |chunks|);
    WriteCommits(s, endpoint, entries, c, n, b);
    ContentAppend(committed, NewBlocks(newIds, chunks));
    ContentNewBlocks(newIds, chunks);
    FlattenChunks(b, MaxBlobBlockSize);
  }

  /** A write that stops at a failure leaves every container and blob as it was. */
  /** What an attempted write does: a failure keeps every container, a success on distinct IDs appends `b`. */
  lemma WriteOutcome(s: Store, endpoint: string, entries: seq<Entry>, c: string, n: string, b: seq<byte>, ok: bool)
    requires Attempted(entries, WritePlan(c, n, Ids(CommittedOf(s, c, n)), b), ok)
    requires ok ==> BlobIn(s, c, n)
    ensures !ok ==> Run(s, endpoint, entries).containers == s.containers
    ensures ok && DistinctIds(CommittedOf(s, c, n)) ==>
      Content(CommittedOf(Run(s, endpoint, entries), c, n)) == Content(CommittedOf(s, c, n)) + b
  {
    if !ok {
      FailedWriteKeepsContainers(s, endpoint, entries, c, n, Ids(CommittedOf(s, c, n)), b);
    } else if DistinctIds(CommittedOf(s, c, n)) {
      WriteAppends(s, endpoint, entries, c, n, b);
    }
  }

  lemma FailedWriteKeepsContainers(s: Store, endpoint: string, entries: seq<Entry>,
                                   c: string, n: string, ids: seq<string>, b: seq<byte>)
    requires Attempted(entries, WritePlan(c, n, ids, b), false)
    ensures Run(s, endpoint, entries).containers == s.containers
  {
    var plan := WritePlan(c, n, ids, b);
    PlanCommitsLast(c, n, ids, b);
    forall i | 0 <= i < |entries| ensures !entries[i].ok || KeepsContainers(entries[i].call) {
      if entries[i].ok {
        PlanAt(c, n, ids, b);
      }
    }
    RunKeepsContainers(s, endpoint, entries);
  }
}
