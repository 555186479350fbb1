/**
 * The storage client of lib/azure.go: removing, testing, moving and renaming containers and
 * blobs, opening a blob for writing, and the block-staged `Write`.
 *
 * Each operation is a sequence of requests to a `BlobService`. Its contract states which
 * requests it makes (a plan, attempted in order and stopped at the first failure), what it
 * answers, and that the service's store is the result of running the logged requests. The lemmas
 * below the plans say what a plan does to the store.
 */
module Azure {

  import opened Common
  import opened GoStrings
  import opened Storage
  import opened AzurePath
  import opened BlockIds
  import opened BlockWrite

  const OldPathMissing := "azureClient : oldpath does not exist"
  const PathMismatch := "Rename path does not match"
  const NeedContent := "Need write content"

  // ---------------------------------------------------------------------------
  // Remove

  /** The request `Remove` makes for a name, or the error that stops it before any request. */
  function RemoveRequest(name: string): Result<Call>
  {
    var afterSplit := Split(name, '/');
    if |afterSplit| == 1 && Utf8Length(afterSplit[0]) == MaxContainerLength then Success(DeleteContainerIfExistsCall(name))
    else
      match ConvertToAzurePath(name)
      case Failure(e) => Failure(e)
      case Success((c, b)) => Success(DeleteBlobIfExistsCall(c, b))
  }

  /** `Remove` deletes a container exactly for a name of one segment of 32 bytes. */
  lemma RemoveContainerOnly(name: string)
    ensures RemoveRequest(name).Success? && RemoveRequest(name).value.DeleteContainerIfExistsCall?
      <==> '/' !in name && Utf8Length(name) == MaxContainerLength
    ensures '/' !in name && Utf8Length(name) == MaxContainerLength ==> RemoveRequest(name) == Success(DeleteContainerIfExistsCall(name))
  {
    SplitFirst(name, '/');
  }

  /** A shorter name without `/` is not removed as a container: it is taken as the empty blob of that container. */
  lemma RemoveShortName(name: string)
    requires '/' !in name && Utf8Length(name) < MaxContainerLength
    ensures RemoveRequest(name) == Success(DeleteBlobIfExistsCall(name, ""))
  {
    SplitFirst(name, '/');
    ConvertContainer(name);
  }

  /** A longer name without `/` is refused before any request. */
  lemma RemoveLongName(name: string)
    requires '/' !in name && Utf8Length(name) > MaxContainerLength
    ensures RemoveRequest(name) == Failure(ContainerTooLong)
  {
    SplitFirst(name, '/');
  }

  /** A path with `/` removes the blob it names, or is refused when its container part is too long. */
  lemma RemoveBlobPath(container: string, blob: string)
    requires '/' !in container
    ensures var name := container + "/" + blob;
      RemoveRequest(name) == if Utf8Length(container) <= MaxContainerLength then Success(DeleteBlobIfExistsCall(container, blob))
                             else Failure(ContainerTooLong)
  {
    var name := container + "/" + blob;
    assert name == container + ['/'] + blob;
    SplitCons(container, '/', blob);
    IndexOfAfter(container, '/', blob);
    if Utf8Length(container) <= MaxContainerLength {
      ConvertJoined(container, blob);
    } else {
      assert ContainerPart(name) == container;
    }
  }

  /** Sixteen `é` are sixteen characters but thirty-two bytes: `Remove` deletes them as a container. */
  lemma RemoveCountsBytes()
    ensures RemoveRequest(seq(16, _ => '\U{e9}')) == Success(DeleteContainerIfExistsCall(seq(16, _ => '\U{e9}')))
  {
    Utf8LengthRepeat('\U{e9}', 16);
    RemoveContainerOnly(seq(16, _ => '\U{e9}'));
  }

  // ---------------------------------------------------------------------------
  // Exists

  /** The request `Exists` makes for a converted path: the blob when there is one, else the container. */
  function ExistsCall(container: string, blob: string): Call
  {
    if blob != "" then BlobExistsCall(container, blob) else ContainerExistsCall(container)
  }

  /** The existence probe, whether or not it succeeds, is the only request added and leaves the store as it was. */
  lemma ProbeKeepsStore(s0: Store, endpoint: string, log0: seq<Entry>, c: string, b: string, ok: bool)
    ensures var log := log0 + [Entry(ExistsCall(c, b), ok)];
      Extends(log0, log) && Since(log0, log) == [Entry(ExistsCall(c, b), ok)] && Run(s0, endpoint, Since(log0, log)) == s0
  {
    var e := Entry(ExistsCall(c, b), ok);
    assert (log0 + [e])[..|log0|] == log0;
    RunReadOnly(s0, endpoint, e);
  }

  /** What `Exists` answers: whether the blob, or for an empty blob name the container, is in the store. */
  predicate PathExists(s: Store, container: string, blob: string)
  {
    if blob != "" then BlobIn(s, container, blob) else container in s.containers
  }

  // ---------------------------------------------------------------------------
  // moveBlob

  /** The requests of `moveBlob`: none when both URLs are equal; else a copy, then a delete of the source unless a container is being renamed. */
  function MoveRequests(endpoint: string, dstC: string, dstB: string, srcC: string, srcB: string,
                        isContainerRename: bool): seq<Call>
  {
    if BlobURL(endpoint, dstC, dstB) == BlobURL(endpoint, srcC, srcB) then []
    else [CopyBlobCall(dstC, dstB, BlobURL(endpoint, srcC, srcB))]
         + (if isContainerRename then [] else [DeleteBlobCall(srcC, srcB)])
  }

  /** For container names without `/`, `moveBlob` makes no request exactly when source and destination are the same blob. */
  lemma MoveNothingInPlace(endpoint: string, dstC: string, dstB: string, srcC: string, srcB: string, isContainerRename: bool)
    requires '/' !in dstC && '/' !in srcC
    ensures MoveRequests(endpoint, dstC, dstB, srcC, srcB, isContainerRename) == [] <==> dstC == srcC && dstB == srcB
  {
    BlobURLInjective(endpoint, dstC, dstB, srcC, srcB);
  }

  /** Putting a blob at the destination and then removing the source moves it; other blobs and the container names stay. */
  lemma MovedBlob(s: Store, dstC: string, dstB: string, srcC: string, srcB: string)
    requires (dstC != srcC || dstB != srcB) && BlobIn(s, srcC, srcB) && dstC in s.containers
    ensures var t := RemoveBlob(PutBlob(s, dstC, dstB, s.containers[srcC][srcB]), srcC, srcB);
      BlobIn(t, dstC, dstB) && t.containers[dstC][dstB] == s.containers[srcC][srcB]
      && !BlobIn(t, srcC, srcB)
      && t.containers.Keys == s.containers.Keys
      && forall c, n :: (BlobIn(s, c, n) && (c, n) != (dstC, dstB) && (c, n) != (srcC, srcB)
                         ==> BlobIn(t, c, n) && t.containers[c][n] == s.containers[c][n])
  {
  }

  /** A blob move whose requests succeed puts the source blob at the destination and removes the source; other blobs stay. */
  lemma MoveBlobEffect(s: Store, endpoint: string, dstC: string, dstB: string, srcC: string, srcB: string)
    requires '/' !in dstC && '/' !in srcC && (dstC != srcC || dstB != srcB)
    requires BlobIn(s, srcC, srcB) && dstC in s.containers
    ensures var t := Run(s, endpoint, OkEntries(MoveRequests(endpoint, dstC, dstB, srcC, srcB, false)));
      t == RemoveBlob(PutBlob(s, dstC, dstB, s.containers[srcC][srcB]), srcC, srcB)
  {
    var copy := CopyBlobCall(dstC, dstB, BlobURL(endpoint, srcC, srcB));
    var del := DeleteBlobCall(srcC, srcB);
    MoveNothingInPlace(endpoint, dstC, dstB, srcC, srcB, false);
    assert MoveRequests(endpoint, dstC, dstB, srcC, srcB, false) == [copy, del];
    assert OkEntries([copy, del]) == [Entry(copy, true)] + [Entry(del, true)];
    RunSnoc(s, endpoint, [Entry(copy, true)], Entry(del, true));
    RunSnoc(s, endpoint, [], Entry(copy, true));
    CopyStep(s, endpoint, dstC, dstB, srcC, srcB);
    var u := PutBlob(s, dstC, dstB, s.containers[srcC][srcB]);
    assert BlobIn(u, srcC, srcB);
  }

  function Names(blobs: seq<BlobEntry>): (names: seq<string>)
    ensures |names| == |blobs| && forall i :: 0 <= i < |blobs| ==> names[i] == blobs[i].name
  {
    seq(|blobs|, i requires 0 <= i < |blobs| => blobs[i].name)
  }

  /** Every blob listed on `page` is a blob of container `c`. */
  predicate ListedFrom(s: Store, c: string, page: BlobListResponse)
  {
    c in s.containers && forall n :: n in Names(page.blobs) ==> n in s.containers[c]
  }

  /** A page the service may answer for container `c` lists only blobs of `c`. */
  lemma PageFitsListed(s: Store, c: string, params: ListBlobsParameters, page: BlobListResponse)
    requires c in s.containers && PageFits(s, c, params, page)
    ensures ListedFrom(s, c, page)
  {
    forall n | n in Names(page.blobs)
      ensures n in s.containers[c]
    {
      var i :| 0 <= i < |page.blobs| && Names(page.blobs)[i] == n;
      assert page.blobs[i] in page.blobs;
    }
  }

  /** The copies of a container rename: one `moveBlob` per listed name, keeping the source. */
  function CopyRequests(endpoint: string, srcC: string, dstC: string, names: seq<string>): seq<Call>
  {
    if names == [] then []
    else
      var k := |names| - 1;
      CopyRequests(endpoint, srcC, dstC, names[..k]) + MoveRequests(endpoint, dstC, names[k], srcC, names[k], true)
  }

  lemma {:induction false} CopyRequestsAppend(endpoint: string, srcC: string, dstC: string, a: seq<string>, b: seq<string>)
    ensures CopyRequests(endpoint, srcC, dstC, a + b)
      == CopyRequests(endpoint, srcC, dstC, a) + CopyRequests(endpoint, srcC, dstC, b)
    decreases |b|
  {
    if b == [] {
      assert a + b == a;
    } else {
      var k := |b| - 1;
      var ab := a + b;
      var last := MoveRequests(endpoint, dstC, b[k], srcC, b[k], true);
      assert ab[..|ab| - 1] == a + b[..k] && ab[|ab| - 1] == b[k];
      assert CopyRequests(endpoint, srcC, dstC, ab) == CopyRequests(endpoint, srcC, dstC, a + b[..k]) + last;
      assert CopyRequests(endpoint, srcC, dstC, b) == CopyRequests(endpoint, srcC, dstC, b[..k]) + last;
      CopyRequestsAppend(endpoint, srcC, dstC, a, b[..k]);
    }
  }

  /** The copies of the first `i` names, then those of name `i`, are how the copies of all names begin. */
  lemma CopyRequestsSplit(endpoint: string, srcC: string, dstC: string, names: seq<string>, i: nat)
    requires i < |names|
    ensures var copies, done := CopyRequests(endpoint, srcC, dstC, names), CopyRequests(endpoint, srcC, dstC, names[..i]);
      var move := MoveRequests(endpoint, dstC, names[i], srcC, names[i], true);
      var m := |done|;
      m + |move| <= |copies| && copies[..m] == done && copies[m..m + |move|] == move
      && copies[..m + |move|] == CopyRequests(endpoint, srcC, dstC, names[..i + 1])
  {
    var move := MoveRequests(endpoint, dstC, names[i], srcC, names[i], true);
    assert names[..i + 1][..i] == names[..i];
    assert CopyRequests(endpoint, srcC, dstC, names[..i + 1]) == CopyRequests(endpoint, srcC, dstC, names[..i]) + move;
    assert names == names[..i + 1] + names[i + 1..];
    CopyRequestsAppend(endpoint, srcC, dstC, names[..i + 1], names[i + 1..]);
  }

  /**
   * One turn of the copy loop of a container rename: after the copies of the first `i` blobs
   * succeeded, the `moveBlob` of blob `i` either completes the copies of the first `i + 1` or
   * ends a failed attempt at all of them; the store follows both parts of the log.
   */
  lemma CopyNext(s0: Store, endpoint: string, srcC: string, dstC: string, blobs: seq<BlobEntry>, i: nat,
                 log0: seq<Entry>, log1: seq<Entry>, log2: seq<Entry>, succeeded: bool)
    requires i < |blobs| && Extends(log0, log1) && Extends(log1, log2)
    requires Attempted(Since(log0, log1), CopyRequests(endpoint, srcC, dstC, Names(blobs)[..i]), true)
    requires Attempted(Since(log1, log2), MoveRequests(endpoint, dstC, blobs[i].name, srcC, blobs[i].name, true), succeeded)
    ensures Extends(log0, log2)
    ensures Run(s0, endpoint, Since(log0, log2)) == Run(Run(s0, endpoint, Since(log0, log1)), endpoint, Since(log1, log2))
    ensures succeeded ==> Attempted(Since(log0, log2), CopyRequests(endpoint, srcC, dstC, Names(blobs)[..i + 1]), true)
    ensures !succeeded ==> Attempted(Since(log0, log2), CopyRequests(endpoint, srcC, dstC, Names(blobs)), false)
  {
    var names := Names(blobs);
    var copies := CopyRequests(endpoint, srcC, dstC, names);
    CopyRequestsSplit(endpoint, srcC, dstC, names, i);
    var m := |CopyRequests(endpoint, srcC, dstC, names[..i])|;
    var k := |MoveRequests(endpoint, dstC, names[i], srcC, names[i], true)|;
    AdvancePart(s0, endpoint, log0, log1, log2, copies, m, k, succeeded);
  }

  /** The page `ListBlobs` answers first: the first scripted page, or none. */
  function FirstPage(listing: seq<BlobListResponse>): BlobListResponse
  {
    if |listing| > 0 then listing[0] else BlobListResponse([], [], "")
  }

  /** The parameters of the one listing a container rename makes: no prefix, no delimiter, no marker. */
  const RenameListParameters := ListBlobsParameters("", "", "")

  /**
   * The requests of a container rename: list the source's first page, create the destination,
   * copy each listed blob, delete the source.
   */
  function ContainerRenamePlan(endpoint: string, srcC: string, dstC: string, page: BlobListResponse): seq<Call>
  {
    [ListBlobsCall(srcC, RenameListParameters), CreateContainerIfNotExistsCall(dstC)]
    + CopyRequests(endpoint, srcC, dstC, Names(page.blobs))
    + [DeleteContainerCall(srcC)]
  }

  /** Where the parts of a container rename sit in its plan once the listing is done. */
  lemma ContainerRenamePlanParts(endpoint: string, srcC: string, dstC: string, page: BlobListResponse)
    ensures var plan := ContainerRenamePlan(endpoint, srcC, dstC, page)[1..];
      var copies := CopyRequests(endpoint, srcC, dstC, Names(page.blobs));
      |plan| == |copies| + 2 && plan[..0] == [] && plan[0] == CreateContainerIfNotExistsCall(dstC)
      && plan[1..1 + |copies|] == copies && plan[1 + |copies|] == DeleteContainerCall(srcC)
      && plan[..|plan|] == plan
  {
    var copies := CopyRequests(endpoint, srcC, dstC, Names(page.blobs));
    var plan := ContainerRenamePlan(endpoint, srcC, dstC, page)[1..];
    var create, del := CreateContainerIfNotExistsCall(dstC), DeleteContainerCall(srcC);
    assert plan == [create] + copies + [del];
    assert plan[1..1 + |copies|] == copies;
  }

  /** The plan of a container rename depends on the page only through its blobs. */
  lemma ContainerRenamePlanTail(endpoint: string, srcC: string, dstC: string, page: BlobListResponse)
    ensures var plan := ContainerRenamePlan(endpoint, srcC, dstC, page);
      |plan| >= 1 && plan[..1] == [plan[0]]
      && plan[1..] == ContainerRenamePlan(endpoint, srcC, dstC, BlobListResponse(page.blobs, [], ""))[1..]
      && plan[1..1 + (|plan| - 1)] == plan[1..]
  {
  }

  /** A container rename that completes has deleted the source container, whatever the destination. */
  lemma ContainerRenameRemovesSource(s: Store, endpoint: string, srcC: string, dstC: string, page: BlobListResponse)
    ensures srcC !in Run(s, endpoint, OkEntries(ContainerRenamePlan(endpoint, srcC, dstC, page))).containers
  {
    var plan := ContainerRenamePlan(endpoint, srcC, dstC, page);
    var last := |plan| - 1;
    assert plan == plan[..last] + [DeleteContainerCall(srcC)];
    OkEntriesSnoc(plan, last);
    assert plan[..last + 1] == plan;
    RunSnoc(s, endpoint, OkEntries(plan[..last]), Entry(plan[last], true));
  }

  /** In a rename of a container to itself every copy is skipped: the plan lists, creates nothing new, and deletes the container. */
  lemma SelfRenamePlan(endpoint: string, c: string, names: seq<string>)
    ensures CopyRequests(endpoint, c, c, names) == []
  {
    if names != [] {
      SelfRenamePlan(endpoint, c, names[..|names| - 1]);
    }
  }

  /**
   * `t` is `s` after copying the blobs `names` of `srcC` into `dstC`: the same containers, none
   * but `dstC` changed, each listed blob in `dstC` as `srcC` has it, every other blob of
   * `dstC` kept, and no other blob added to it.
   */
  predicate CopiedInto(s: Store, t: Store, srcC: string, dstC: string, names: seq<string>)
    requires dstC in s.containers && srcC in s.containers
    requires forall i :: 0 <= i < |names| ==> names[i] in s.containers[srcC]
  {
    t.containers.Keys == s.containers.Keys && dstC in t.containers
    && (forall c :: c in s.containers && c != dstC ==> t.containers[c] == s.containers[c])
    && (forall i :: 0 <= i < |names| ==> names[i] in t.containers[dstC]
                                           && t.containers[dstC][names[i]] == s.containers[srcC][names[i]])
    && (forall n :: n in s.containers[dstC] && n !in names ==> n in t.containers[dstC]
                                                                && t.containers[dstC][n] == s.containers[dstC][n])
    && (forall n :: n in t.containers[dstC] ==> n in s.containers[dstC] || n in names)
  }

  /** One more copy extends a run of copies by its blob. */
  lemma CopiedSnoc(s: Store, u: Store, srcC: string, dstC: string, names: seq<string>, n: string)
    requires dstC in s.containers && srcC in s.containers && srcC != dstC && n in s.containers[srcC]
    requires forall i :: 0 <= i < |names| ==> names[i] in s.containers[srcC]
    requires CopiedInto(s, u, srcC, dstC, names)
    ensures dstC in u.containers && srcC in u.containers
    ensures forall i :: 0 <= i < |names + [n]| ==> (names + [n])[i] in s.containers[srcC]
    ensures CopiedInto(s, PutBlob(u, dstC, n, u.containers[srcC][n]), srcC, dstC, names + [n])
  {
    var t := PutBlob(u, dstC, n, u.containers[srcC][n]);
    var more := names + [n];
    assert u.containers[srcC] == s.containers[srcC];
    assert t.containers.Keys == s.containers.Keys && dstC in t.containers;
    assert forall c :: c in s.containers && c != dstC ==> t.containers[c] == s.containers[c];
    assert forall i :: 0 <= i < |more| ==> more[i] in t.containers[dstC]
                                            && t.containers[dstC][more[i]] == s.containers[srcC][more[i]];
    assert forall m :: m in s.containers[dstC] && m !in more ==>
      m in t.containers[dstC] && t.containers[dstC][m] == s.containers[dstC][m];
    assert forall m :: m in t.containers[dstC] ==> m in s.containers[dstC] || m in more;
  }

  /**
   * The copies of a container rename, when they succeed and the listed blobs are in the source,
   * give the destination each listed blob as the source has it, and change no other container.
   */
  lemma {:induction false} RunCopies(s: Store, endpoint: string, srcC: string, dstC: string, names: seq<string>)
    requires '/' !in srcC && '/' !in dstC && srcC != dstC && dstC in s.containers && srcC in s.containers
    requires forall i :: 0 <= i < |names| ==> names[i] in s.containers[srcC]
    ensures CopiedInto(s, Run(s, endpoint, OkEntries(CopyRequests(endpoint, srcC, dstC, names))), srcC, dstC, names)
    decreases |names|
  {
    if names == [] {
      assert CopyRequests(endpoint, srcC, dstC, names) == [];
      assert OkEntries([]) == [];
    } else {
      var k := |names| - 1;
      var n := names[k];
      var front := CopyRequests(endpoint, srcC, dstC, names[..k]);
      assert forall i :: 0 <= i < k ==> names[..k][i] == names[i];
      RunCopies(s, endpoint, srcC, dstC, names[..k]);
      var u := Run(s, endpoint, OkEntries(front));
      CopiedSnoc(s, u, srcC, dstC, names[..k], n);
      CopyRunSnoc(s, endpoint, srcC, dstC, names);
      CopyStep(u, endpoint, dstC, n, srcC, n);
      FrontLast(names);
    }
  }

  /** The copies of a container rename, one more blob at a time: the last copy is one more step of the run. */
  lemma CopyRunSnoc(s: Store, endpoint: string, srcC: string, dstC: string, names: seq<string>)
    requires '/' !in srcC && '/' !in dstC && srcC != dstC && |names| > 0
    ensures var k := |names| - 1;
      var copy := CopyBlobCall(dstC, names[k], BlobURL(endpoint, srcC, names[k]));
      Run(s, endpoint, OkEntries(CopyRequests(endpoint, srcC, dstC, names)))
        == Step(Run(s, endpoint, OkEntries(CopyRequests(endpoint, srcC, dstC, names[..k]))), endpoint, Entry(copy, true))
  {
    var k := |names| - 1;
    var n := names[k];
    var front := CopyRequests(endpoint, srcC, dstC, names[..k]);
    MoveNothingInPlace(endpoint, dstC, n, srcC, n, true);
    var copy := CopyBlobCall(dstC, n, BlobURL(endpoint, srcC, n));
    assert MoveRequests(endpoint, dstC, n, srcC, n, true) == [copy];
    assert CopyRequests(endpoint, srcC, dstC, names) == front + [copy];
    OkEntriesAppend(front, [copy]);
    assert OkEntries([copy]) == [Entry(copy, true)];
    RunSnoc(s, endpoint, OkEntries(front), Entry(copy, true));
  }

  /**
   * A container rename whose requests all succeed, between two different containers, when the
   * listed blobs are in the source: the source is gone, the destination holds every listed
   * blob as the source had it, and nothing else but what it held before.
   */
  lemma ContainerRenameMoves(s: Store, endpoint: string, srcC: string, dstC: string)
    requires '/' !in srcC && '/' !in dstC && srcC != dstC && srcC in s.containers
    requires var names := Names(FirstPage(s.listing).blobs);
      forall i :: 0 <= i < |names| ==> names[i] in s.containers[srcC]
    ensures var names := Names(FirstPage(s.listing).blobs);
      var t := Run(s, endpoint, OkEntries(ContainerRenamePlan(endpoint, srcC, dstC, FirstPage(s.listing))));
      srcC !in t.containers && dstC in t.containers
      && (forall i :: 0 <= i < |names| ==> names[i] in t.containers[dstC]
                                           && t.containers[dstC][names[i]] == s.containers[srcC][names[i]])
      && forall n :: n in t.containers[dstC] ==> n in names || (dstC in s.containers && n in s.containers[dstC])
  {
    var names := Names(FirstPage(s.listing).blobs);
    var s2 := Step(Step(s, endpoint, Entry(ListBlobsCall(srcC, RenameListParameters), true)), endpoint,
                   Entry(CreateContainerIfNotExistsCall(dstC), true));
    ContainerRenameSteps(s, endpoint, srcC, dstC);
    ListThenCreate(s, endpoint, srcC, dstC);
    RunCopies(s2, endpoint, srcC, dstC, names);
    var u := Run(s2, endpoint, OkEntries(CopyRequests(endpoint, srcC, dstC, names)));
    DeleteContainerStep(u, endpoint, srcC);
  }

  /** Listing the source and creating the destination keep the source's blobs and leave the destination as it was, or empty. */
  lemma ListThenCreate(s: Store, endpoint: string, srcC: string, dstC: string)
    requires srcC in s.containers && srcC != dstC
    ensures var s2 := Step(Step(s, endpoint, Entry(ListBlobsCall(srcC, RenameListParameters), true)), endpoint,
                           Entry(CreateContainerIfNotExistsCall(dstC), true));
      srcC in s2.containers && dstC in s2.containers && s2.containers[srcC] == s.containers[srcC]
      && s2.containers[dstC] == if dstC in s.containers then s.containers[dstC] else map[]
  {
    var s1 := Step(s, endpoint, Entry(ListBlobsCall(srcC, RenameListParameters), true));
    assert s1.containers == s.containers;
  }

  /** The store after a container rename whose requests all succeed, step by step: list, create, copy, delete. */
  lemma ContainerRenameSteps(s: Store, endpoint: string, srcC: string, dstC: string)
    ensures var page := FirstPage(s.listing);
      var s2 := Step(Step(s, endpoint, Entry(ListBlobsCall(srcC, RenameListParameters), true)), endpoint,
                     Entry(CreateContainerIfNotExistsCall(dstC), true));
      var copies := CopyRequests(endpoint, srcC, dstC, Names(page.blobs));
      Run(s, endpoint, OkEntries(ContainerRenamePlan(endpoint, srcC, dstC, page)))
        == Step(Run(s2, endpoint, OkEntries(copies)), endpoint, Entry(DeleteContainerCall(srcC), true))
  {
    var page := FirstPage(s.listing);
    var names := Names(page.blobs);
    var list := ListBlobsCall(srcC, RenameListParameters);
    var create := CreateContainerIfNotExistsCall(dstC);
    var copies := CopyRequests(endpoint, srcC, dstC, names);
    var del := DeleteContainerCall(srcC);
    var plan := ContainerRenamePlan(endpoint, srcC, dstC, page);
    assert plan == [list, create] + copies + [del];
    OkEntriesAppend([list, create] + copies, [del]);
    OkEntriesAppend([list, create], copies);
    assert OkEntries([list, create]) == [Entry(list, true), Entry(create, true)];
    assert OkEntries([del]) == [Entry(del, true)];
    var s2 := Step(Step(s, endpoint, Entry(list, true)), endpoint, Entry(create, true));
    assert Run(s, endpoint, [Entry(list, true), Entry(create, true)]) == s2 by {
      RunSnoc(s, endpoint, [Entry(list, true)], Entry(create, true));
      RunSnoc(s, endpoint, [], Entry(list, true));
      assert [Entry(list, true)] + [Entry(create, true)] == [Entry(list, true), Entry(create, true)];
    }
    RunAppend(s, endpoint, [Entry(list, true), Entry(create, true)], OkEntries(copies));
    RunSnoc(s, endpoint, OkEntries([list, create] + copies), Entry(del, true));
  }

  // ---------------------------------------------------------------------------
  // Rename as a whole

  /**
   * What `Rename` does, given the store `s` before it, the requests it made (`entries`), its
   * answer and the store `t` after it.
   */
  predicate RenameOutcome(endpoint: string, s: Store, entries: seq<Entry>, err: Option<string>, t: Store,
                          oldpath: string, newpath: string)
  {
    var src := ConvertToAzurePath(oldpath);
    var dst := ConvertToAzurePath(newpath);
    t == Run(s, endpoint, entries)
    && if src.Failure? then err == Some(src.error) && entries == []
       else
         var (srcC, srcB) := src.value;
         |entries| >= 1 && entries[0].call == ExistsCall(srcC, srcB)
         && if !entries[0].ok then err.Some? && |entries| == 1
            else if !PathExists(s, srcC, srcB) then err == Some(OldPathMissing) && |entries| == 1
            else if dst.Failure? then err == Some(dst.error) && |entries| == 1
            else
              var (dstC, dstB) := dst.value;
              if srcB == "" && dstB == "" then
                Attempted(entries[1..], ContainerRenamePlan(endpoint, srcC, dstC, FirstPage(s.listing)), err.None?)
                && (err.None? ==> ListedFrom(s, srcC, FirstPage(s.listing)))
              else if srcB != "" && dstB != "" then
                var plan := MoveRequests(endpoint, dstC, dstB, srcC, srcB, false);
                err.None? && (Attempted(entries[1..], plan, true) || Attempted(entries[1..], plan, false))
              else err == Some(PathMismatch) && |entries| == 1
  }

  /** What `RenameOutcome` says once both paths are known to name blobs. */
  lemma BlobRenameOutcome(endpoint: string, s: Store, entries: seq<Entry>, err: Option<string>, t: Store,
                          oldpath: string, newpath: string, srcC: string, srcB: string, dstC: string, dstB: string)
    requires ConvertToAzurePath(oldpath) == Success((srcC, srcB)) && ConvertToAzurePath(newpath) == Success((dstC, dstB))
    requires srcB != "" && dstB != ""
    ensures RenameOutcome(endpoint, s, entries, err, t, oldpath, newpath) <==>
      t == Run(s, endpoint, entries) && |entries| >= 1 && entries[0].call == BlobExistsCall(srcC, srcB)
      && if !entries[0].ok then err.Some? && |entries| == 1
         else if !BlobIn(s, srcC, srcB) then err == Some(OldPathMissing) && |entries| == 1
         else
           var plan := MoveRequests(endpoint, dstC, dstB, srcC, srcB, false);
           err.None? && (Attempted(entries[1..], plan, true) || Attempted(entries[1..], plan, false))
  {
  }

  /** `Rename` succeeds only on an existing path, and only between two containers or between two blobs. */
  lemma RenameSucceedsOnlyOnMatchingPaths(endpoint: string, s: Store, entries: seq<Entry>, t: Store,
                                          oldpath: string, newpath: string)
    requires RenameOutcome(endpoint, s, entries, None, t, oldpath, newpath)
    ensures ConvertToAzurePath(oldpath).Success? && ConvertToAzurePath(newpath).Success?
    ensures var (srcC, srcB) := ConvertToAzurePath(oldpath).value;
      PathExists(s, srcC, srcB) && (srcB == "" <==> ConvertToAzurePath(newpath).value.1 == "")
  {
  }

  /** A rename refused for a missing old path or for paths of different kinds makes one request and changes nothing. */
  lemma RenameRefusalKeepsStore(endpoint: string, s: Store, entries: seq<Entry>, err: Option<string>, t: Store,
                                oldpath: string, newpath: string)
    requires RenameOutcome(endpoint, s, entries, err, t, oldpath, newpath)
    requires ConvertToAzurePath(oldpath).Success? && ConvertToAzurePath(newpath).Success?
    requires var (srcC, srcB) := ConvertToAzurePath(oldpath).value;
      !PathExists(s, srcC, srcB) || (srcB == "" <==> ConvertToAzurePath(newpath).value.1 != "")
    ensures err.Some? && |entries| == 1 && t == s
  {
    var (srcC, srcB) := ConvertToAzurePath(oldpath).value;
    assert |entries| == 1 && entries[0].call == ExistsCall(srcC, srcB);
    assert entries == [entries[0]];
    RunReadOnly(s, endpoint, entries[0]);
  }

  /** A probe that finds the blob followed by a failed copy changes nothing, and is an attempt of the move that failed at its first request. */
  lemma FailedCopyRun(endpoint: string, s: Store, srcC: string, srcB: string, dstC: string, dstB: string)
    requires '/' !in srcC && '/' !in dstC && (srcC, srcB) != (dstC, dstB)
    ensures var copy := CopyBlobCall(dstC, dstB, BlobURL(endpoint, srcC, srcB));
      var entries := [Entry(BlobExistsCall(srcC, srcB), true), Entry(copy, false)];
      Run(s, endpoint, entries) == s
      && Attempted(entries[1..], MoveRequests(endpoint, dstC, dstB, srcC, srcB, false), false)
  {
    MoveNothingInPlace(endpoint, dstC, dstB, srcC, srcB, false);
    var probe := Entry(BlobExistsCall(srcC, srcB), true);
    var copy := CopyBlobCall(dstC, dstB, BlobURL(endpoint, srcC, srcB));
    var entries := [probe, Entry(copy, false)];
    var plan := MoveRequests(endpoint, dstC, dstB, srcC, srcB, false);
    AttemptedFail(plan, 0);
    assert entries[1..] == OkEntries(plan[..0]) + [Entry(plan[0], false)];
    assert [probe] + [Entry(copy, false)] == entries;
    RunSnoc(s, endpoint, [probe], Entry(copy, false));
    RunReadOnly(s, endpoint, probe);
  }

  /** Renaming a blob whose copy fails still answers no error: the failure of `moveBlob` is dropped. */
  lemma RenameDropsMoveFailure(endpoint: string, s: Store, oldpath: string, newpath: string,
                               srcC: string, srcB: string, dstC: string, dstB: string)
    requires ConvertToAzurePath(oldpath) == Success((srcC, srcB)) && ConvertToAzurePath(newpath) == Success((dstC, dstB))
    requires srcB != "" && dstB != "" && (srcC, srcB) != (dstC, dstB) && BlobIn(s, srcC, srcB)
    ensures var copy := CopyBlobCall(dstC, dstB, BlobURL(endpoint, srcC, srcB));
      RenameOutcome(endpoint, s, [Entry(BlobExistsCall(srcC, srcB), true), Entry(copy, false)], None, s, oldpath, newpath)
  {
    var copy := CopyBlobCall(dstC, dstB, BlobURL(endpoint, srcC, srcB));
    var entries := [Entry(BlobExistsCall(srcC, srcB), true), Entry(copy, false)];
    FailedCopyRun(endpoint, s, srcC, srcB, dstC, dstB);
    BlobRenameOutcome(endpoint, s, entries, None, s, oldpath, newpath, srcC, srcB, dstC, dstB);
  }

  /** Renaming a blob whose requests all succeed moves it: the destination holds the old blob and the source is gone. */
  lemma RenameBlobMoves(endpoint: string, s: Store, entries: seq<Entry>, t: Store, oldpath: string, newpath: string)
    requires RenameOutcome(endpoint, s, entries, None, t, oldpath, newpath)
    requires forall i :: 0 <= i < |entries| ==> entries[i].ok
    requires ConvertToAzurePath(oldpath).Success? && ConvertToAzurePath(newpath).Success?
    requires var (srcC, srcB) := ConvertToAzurePath(oldpath).value;
      var (dstC, dstB) := ConvertToAzurePath(newpath).value;
      srcB != "" && dstB != "" && (srcC, srcB) != (dstC, dstB) && dstC in s.containers
    ensures var (srcC, srcB) := ConvertToAzurePath(oldpath).value;
      var (dstC, dstB) := ConvertToAzurePath(newpath).value;
      BlobIn(t, dstC, dstB) && t.containers[dstC][dstB] == s.containers[srcC][srcB] && !BlobIn(t, srcC, srcB)
  {
    var (srcC, srcB) := ConvertToAzurePath(oldpath).value;
    var (dstC, dstB) := ConvertToAzurePath(newpath).value;
    BlobRenameOutcome(endpoint, s, entries, None, t, oldpath, newpath, srcC, srcB, dstC, dstB);
    BlobMoveRun(endpoint, s, entries, srcC, srcB, dstC, dstB);
  }

  /** A probe followed by a move of the blob, every request succeeding, moves it. */
  lemma BlobMoveRun(endpoint: string, s: Store, entries: seq<Entry>, srcC: string, srcB: string, dstC: string, dstB: string)
    requires '/' !in srcC && '/' !in dstC && (srcC, srcB) != (dstC, dstB)
    requires BlobIn(s, srcC, srcB) && dstC in s.containers
    requires |entries| >= 1 && entries[0].call == BlobExistsCall(srcC, srcB)
    requires forall i :: 0 <= i < |entries| ==> entries[i].ok
    requires var plan := MoveRequests(endpoint, dstC, dstB, srcC, srcB, false);
      Attempted(entries[1..], plan, true) || Attempted(entries[1..], plan, false)
    ensures var t := Run(s, endpoint, entries);
      BlobIn(t, dstC, dstB) && t.containers[dstC][dstB] == s.containers[srcC][srcB] && !BlobIn(t, srcC, srcB)
  {
    var plan := MoveRequests(endpoint, dstC, dstB, srcC, srcB, false);
    assert entries[|entries| - 1].ok;
    AttemptedOk(entries[1..], plan);
    assert entries == [entries[0]] + OkEntries(plan);
    RunAppend(s, endpoint, [entries[0]], OkEntries(plan));
    RunReadOnly(s, endpoint, entries[0]);
    MoveBlobEffect(s, endpoint, dstC, dstB, srcC, srcB);
    MovedBlob(s, dstC, dstB, srcC, srcB);
  }

  /** A container rename whose requests all succeed, between different containers, moves the listed blobs and removes the source. */
  lemma RenameContainerMoves(endpoint: string, s: Store, entries: seq<Entry>, t: Store, oldpath: string, newpath: string)
    requires RenameOutcome(endpoint, s, entries, None, t, oldpath, newpath)
    requires ConvertToAzurePath(oldpath).Success? && ConvertToAzurePath(newpath).Success?
    requires var (srcC, srcB) := ConvertToAzurePath(oldpath).value;
      var (dstC, dstB) := ConvertToAzurePath(newpath).value;
      srcB == "" && dstB == "" && srcC != dstC
    ensures var srcC := ConvertToAzurePath(oldpath).value.0;
      var dstC := ConvertToAzurePath(newpath).value.0;
      var names := Names(FirstPage(s.listing).blobs);
      srcC !in t.containers && dstC in t.containers
      && (forall n :: n in names ==> n in t.containers[dstC] && t.containers[dstC][n] == s.containers[srcC][n])
      && forall n :: n in t.containers[dstC] ==> n in names || (dstC in s.containers && n in s.containers[dstC])
  {
    var (srcC, srcB) := ConvertToAzurePath(oldpath).value;
    var dstC := ConvertToAzurePath(newpath).value.0;
    ContainerMoveRun(endpoint, s, entries, srcC, dstC);
  }

  /** A probe followed by a container rename whose requests all succeed moves the listed blobs and removes the source. */
  lemma ContainerMoveRun(endpoint: string, s: Store, entries: seq<Entry>, srcC: string, dstC: string)
    requires '/' !in srcC && '/' !in dstC && srcC != dstC && ListedFrom(s, srcC, FirstPage(s.listing))
    requires |entries| >= 1 && entries[0].call == ExistsCall(srcC, "")
    requires Attempted(entries[1..], ContainerRenamePlan(endpoint, srcC, dstC, FirstPage(s.listing)), true)
    ensures var names := Names(FirstPage(s.listing).blobs);
      var t := Run(s, endpoint, entries);
      srcC !in t.containers && dstC in t.containers
      && (forall n :: n in names ==> n in t.containers[dstC] && t.containers[dstC][n] == s.containers[srcC][n])
      && forall n :: n in t.containers[dstC] ==> n in names || (dstC in s.containers && n in s.containers[dstC])
  {
    var plan := ContainerRenamePlan(endpoint, srcC, dstC, FirstPage(s.listing));
    AttemptedOk(entries[1..], plan);
    assert entries == [entries[0]] + OkEntries(plan);
    RunAppend(s, endpoint, [entries[0]], OkEntries(plan));
    RunReadOnly(s, endpoint, entries[0]);
    ContainerRenameMoves(s, endpoint, srcC, dstC);
  }

  /**
   * A container rename reads only the first page of the source's listing: a blob of the source
   * that is not on that page, and that the destination did not hold already, is in neither
   * container once the rename has succeeded.
   */
  lemma RenameContainerDropsUnlisted(endpoint: string, s: Store, entries: seq<Entry>, t: Store,
                                     oldpath: string, newpath: string, n: string)
    requires RenameOutcome(endpoint, s, entries, None, t, oldpath, newpath)
    requires ConvertToAzurePath(oldpath).Success? && ConvertToAzurePath(newpath).Success?
    requires var (srcC, srcB) := ConvertToAzurePath(oldpath).value;
      var (dstC, dstB) := ConvertToAzurePath(newpath).value;
      srcB == "" && dstB == "" && srcC != dstC && srcC in s.containers
      && n in s.containers[srcC] && n !in Names(FirstPage(s.listing).blobs)
      && (dstC in s.containers ==> n !in s.containers[dstC])
    ensures var srcC := ConvertToAzurePath(oldpath).value.0;
      var dstC := ConvertToAzurePath(newpath).value.0;
      srcC !in t.containers && dstC in t.containers && n !in t.containers[dstC]
  {
    RenameContainerMoves(endpoint, s, entries, t, oldpath, newpath);
  }

  /**
   * As written, renaming an existing container to itself deletes it: every copy is skipped
   * because source and destination URLs agree, and the source container is deleted afterwards.
   */
  lemma SelfRenameDeletesContainer(endpoint: string, s: Store, entries: seq<Entry>, t: Store, c: string)
    requires '/' !in c && Utf8Length(c) <= MaxContainerLength
    requires RenameOutcome(endpoint, s, entries, None, t, c, c)
    ensures c in s.containers && c !in t.containers
  {
    ConvertContainer(c);
    var plan := ContainerRenamePlan(endpoint, c, c, FirstPage(s.listing));
    AttemptedOk(entries[1..], plan);
    assert entries == [entries[0]] + OkEntries(plan);
    RunAppend(s, endpoint, [entries[0]], OkEntries(plan));
    RunReadOnly(s, endpoint, entries[0]);
    ContainerRenameRemovesSource(s, endpoint, c, c, FirstPage(s.listing));
  }

  // ---------------------------------------------------------------------------
  // Opening a blob for writing

  /** The requests that create a missing blob: its container, the empty blob, its content type. */
  function CreatePlan(container: string, blob: string, ctype: string): seq<Call>
  {
    [CreateContainerIfNotExistsCall(container), CreateBlockBlobCall(container, blob, ctype),
     SetBlobPropertiesCall(container, blob, ctype)]
  }

  /** Creating a blob whose requests all succeed leaves it empty, with the given content type, and keeps every other container. */
  lemma CreatePlanEffect(s: Store, endpoint: string, container: string, blob: string, ctype: string)
    ensures var t := Run(s, endpoint, OkEntries(CreatePlan(container, blob, ctype)));
      BlobIn(t, container, blob) && t.containers[container][blob] == BlobState([], ctype)
      && (forall c :: c in s.containers && c != container ==> c in t.containers && t.containers[c] == s.containers[c])
  {
    var plan := CreatePlan(container, blob, ctype);
    var e0, e1, e2 := Entry(plan[0], true), Entry(plan[1], true), Entry(plan[2], true);
    assert OkEntries(plan) == [e0, e1, e2];
    RunSnoc(s, endpoint, [], e0);
    RunSnoc(s, endpoint, [e0], e1);
    RunSnoc(s, endpoint, [e0, e1], e2);
    assert [e0] + [e1] == [e0, e1] && [e0, e1] + [e2] == [e0, e1, e2];
  }

  /**
   * The content type a new blob is created with does not survive its first successful write:
   * the commit carries no content type, so the blob ends with the service's default, holding the
   * written bytes.
   */
  lemma CreateThenWriteResetsType(s: Store, endpoint: string, entries: seq<Entry>, container: string, blob: string,
                                  ctype: string, b: seq<byte>)
    requires Attempted(entries, WritePlan(container, blob, [], b), true)
    ensures var t := Run(s, endpoint, OkEntries(CreatePlan(container, blob, ctype)));
      var u := Run(t, endpoint, entries);
      BlobIn(t, container, blob) && t.containers[container][blob].contentType == ctype
      && BlobIn(u, container, blob) && u.containers[container][blob].contentType == DefaultContentType
      && Content(u.containers[container][blob].committed) == b
  {
    var t := Run(s, endpoint, OkEntries(CreatePlan(container, blob, ctype)));
    CreatePlanEffect(s, endpoint, container, blob, ctype);
    assert CommittedOf(t, container, blob) == [];
    assert Ids(CommittedOf(t, container, blob)) == [];
    WriteAppends(t, endpoint, entries, container, blob, b);
  }

  // ---------------------------------------------------------------------------
  // The client

  /** `AzureClient`: a blob service client, and the system's extension-to-type table used by `detectMime`. */
  class AzureClient {
    const blobClient: BlobService
    const typeByExtension: string -> string

    constructor (blobClient: BlobService, typeByExtension: string -> string)
      ensures this.blobClient == blobClient && this.typeByExtension == typeByExtension
    {
      this.blobClient := blobClient;
      this.typeByExtension := typeByExtension;
    }

    /** `Remove`: deletes the container for a 32-character name without `/`, else the blob the name denotes. */
    method Remove(name: string) returns (err: Option<string>)
      modifies blobClient
      ensures RemoveRequest(name).Failure? ==>
        err == Some(RemoveRequest(name).error)
        && blobClient.log == old(blobClient.log) && blobClient.store == old(blobClient.store)
      ensures RemoveRequest(name).Success? ==>
        var call := RemoveRequest(name).value;
        blobClient.log == old(blobClient.log) + [Entry(call, err.None?)]
        && err.None? == old(blobClient.Accepts(call))
        && blobClient.store == Step(old(blobClient.store), blobClient.endpoint, Entry(call, err.None?))
    {
      var afterSplit := Split(name, '/');
      if |afterSplit| == 1 && Utf8Length(afterSplit[0]) == MaxContainerLength {
        err := blobClient.DeleteContainerIfExists(name);
        return;
      }
      var converted := ConvertToAzurePath(name);
      if converted.Failure? {
        return Some(converted.error);
      }
      var (containerName, blobName) := converted.value;
      err := blobClient.DeleteBlobIfExists(containerName, blobName);
    }

    /** `Exists`: whether the blob, or for a bare container name the container, is in the store. */
    method Exists(name: string) returns (r: Result<bool>)
      modifies blobClient
      ensures blobClient.store == old(blobClient.store)
      ensures ConvertToAzurePath(name).Failure? ==>
        r == Failure(ConvertToAzurePath(name).error) && blobClient.log == old(blobClient.log)
      ensures ConvertToAzurePath(name).Success? ==>
        var (c, b) := ConvertToAzurePath(name).value;
        blobClient.log == old(blobClient.log) + [Entry(ExistsCall(c, b), r.Success?)]
        && r.Success? == old(blobClient.Accepts(ExistsCall(c, b)))
        && (r.Success? ==> r.value == PathExists(old(blobClient.store), c, b))
    {
      var converted := ConvertToAzurePath(name);
      if converted.Failure? {
        return Failure(converted.error);
      }
      var (containerName, blobName) := converted.value;
      if blobName != "" {
        r := blobClient.BlobExists(containerName, blobName);
      } else {
        r := blobClient.ContainerExists(containerName);
      }
    }

    /** `moveBlob`: copies the source to the destination, then deletes the source unless a container is being renamed. */
    method MoveBlob(dstC: string, dstB: string, srcC: string, srcB: string, isContainerRename: bool)
      returns (err: Option<string>)
      modifies blobClient
      ensures Extends(old(blobClient.log), blobClient.log)
      ensures Attempted(Since(old(blobClient.log), blobClient.log),
                        MoveRequests(blobClient.endpoint, dstC, dstB, srcC, srcB, isContainerRename), err.None?)
      ensures blobClient.store == Run(old(blobClient.store), blobClient.endpoint, Since(old(blobClient.log), blobClient.log))
    {
      ghost var log0, s0 := blobClient.log, blobClient.store;
      ghost var plan := MoveRequests(blobClient.endpoint, dstC, dstB, srcC, srcB, isContainerRename);
      assert Since(log0, log0) == [];
      var dstURL := blobClient.URL(dstC, dstB);
      var srcURL := blobClient.URL(srcC, srcB);
      if dstURL != srcURL {
        ghost var log1 := blobClient.log;
        err := blobClient.CopyBlob(dstC, dstB, srcURL);
        ExtendOne(s0, blobClient.endpoint, log0, log1, Entry(plan[0], err.None?));
        if err.Some? {
          AttemptedFail(plan, 0);
          return;
        }
        if !isContainerRename {
          ghost var log2 := blobClient.log;
          err := blobClient.DeleteBlob(srcC, srcB);
          ExtendOne(s0, blobClient.endpoint, log0, log2, Entry(plan[1], err.None?));
          if err.Some? {
            AttemptedFail(plan, 1);
            return;
          }
        }
      }
      return None;
    }

    /** The copy loop of a container rename: one `moveBlob` per listed blob, keeping the source, stopping at the first failure. */
    method CopyBlobs(srcC: string, dstC: string, blobs: seq<BlobEntry>) returns (err: Option<string>)
      modifies blobClient
      ensures Extends(old(blobClient.log), blobClient.log)
      ensures Attempted(Since(old(blobClient.log), blobClient.log),
                        CopyRequests(blobClient.endpoint, srcC, dstC, Names(blobs)), err.None?)
      ensures blobClient.store == Run(old(blobClient.store), blobClient.endpoint, Since(old(blobClient.log), blobClient.log))
    {
      ghost var log0, s0 := blobClient.log, blobClient.store;
      ghost var endpoint := blobClient.endpoint;
      ghost var names := Names(blobs);
      assert Since(log0, log0) == [];
      var i := 0;
      while i < |blobs|
        invariant 0 <= i <= |blobs|
        invariant Extends(log0, blobClient.log)
        invariant Attempted(Since(log0, blobClient.log), CopyRequests(endpoint, srcC, dstC, names[..i]), true)
        invariant blobClient.store == Run(s0, endpoint, Since(log0, blobClient.log))
      {
        ghost var log1 := blobClient.log;
        var e := MoveBlob(dstC, blobs[i].name, srcC, blobs[i].name, true);
        CopyNext(s0, endpoint, srcC, dstC, blobs, i, log0, log1, blobClient.log, e.None?);
        if e.Some? {
          return e;
        }
        i := i + 1;
      }
      assert names[..i] == names;
      return None;
    }

    /** The requests of a container rename after its listing: create the destination, copy, delete the source. */
    method MoveContainer(srcC: string, dstC: string, blobs: seq<BlobEntry>) returns (err: Option<string>)
      modifies blobClient
      ensures Extends(old(blobClient.log), blobClient.log)
      ensures Attempted(Since(old(blobClient.log), blobClient.log),
                        ContainerRenamePlan(blobClient.endpoint, srcC, dstC, BlobListResponse(blobs, [], ""))[1..],
                        err.None?)
      ensures blobClient.store == Run(old(blobClient.store), blobClient.endpoint, Since(old(blobClient.log), blobClient.log))
    {
      ghost var log0, s0 := blobClient.log, blobClient.store;
      ghost var endpoint := blobClient.endpoint;
      ghost var plan := ContainerRenamePlan(endpoint, srcC, dstC, BlobListResponse(blobs, [], ""))[1..];
      ghost var k := |CopyRequests(endpoint, srcC, dstC, Names(blobs))|;
      ContainerRenamePlanParts(endpoint, srcC, dstC, BlobListResponse(blobs, [], ""));
      assert Since(log0, log0) == [];
      err := blobClient.CreateContainerIfNotExists(dstC);
      Advance(s0, endpoint, log0, log0, plan, 0, Entry(plan[0], err.None?));
      if err.Some? {
        return;
      }
      ghost var log1 := blobClient.log;
      err := CopyBlobs(srcC, dstC, blobs);
      AdvancePart(s0, endpoint, log0, log1, blobClient.log, plan, 1, k, err.None?);
      if err.Some? {
        return;
      }
      ghost var log2 := blobClient.log;
      err := blobClient.DeleteContainer(srcC);
      Advance(s0, endpoint, log0, log2, plan, 1 + k, Entry(plan[1 + k], err.None?));
    }

    /** The container branch of `Rename`: list the source, create the destination, copy each listed blob, delete the source. */
    method RenameContainer(srcC: string, dstC: string) returns (err: Option<string>)
      modifies blobClient
      ensures Extends(old(blobClient.log), blobClient.log)
      ensures Attempted(Since(old(blobClient.log), blobClient.log),
                        ContainerRenamePlan(blobClient.endpoint, srcC, dstC, FirstPage(old(blobClient.store.listing))),
                        err.None?)
      ensures err.None? ==> ListedFrom(old(blobClient.store), srcC, FirstPage(old(blobClient.store.listing)))
      ensures blobClient.store == Run(old(blobClient.store), blobClient.endpoint, Since(old(blobClient.log), blobClient.log))
    {
      ghost var log0, s0 := blobClient.log, blobClient.store;
      ghost var endpoint := blobClient.endpoint;
      ghost var plan := ContainerRenamePlan(endpoint, srcC, dstC, FirstPage(s0.listing));
      assert Since(log0, log0) == [] && plan[..0] == [];
      var resp := blobClient.ListBlobs(srcC, RenameListParameters);
      Advance(s0, endpoint, log0, log0, plan, 0, Entry(plan[0], resp.Success?));
      if resp.Failure? {
        return Some(resp.error);
      }
      PageFitsListed(s0, srcC, RenameListParameters, resp.value);
      ghost var log1 := blobClient.log;
      err := MoveContainer(srcC, dstC, resp.value.blobs);
      ContainerRenamePlanTail(endpoint, srcC, dstC, FirstPage(s0.listing));
      AdvancePart(s0, endpoint, log0, log1, blobClient.log, plan, 1, |plan| - 1, err.None?);
    }

    /**
     * `Rename`, as written: after checking that the old path exists, renames a container by
     * moving its listed blobs, or a blob by moving it, and refuses a mix of the two.
     */
    method Rename(oldpath: string, newpath: string) returns (err: Option<string>)
      modifies blobClient
      ensures Extends(old(blobClient.log), blobClient.log)
      ensures RenameOutcome(blobClient.endpoint, old(blobClient.store), Since(old(blobClient.log), blobClient.log),
                            err, blobClient.store, oldpath, newpath)
    {
      ghost var log0, s0 := blobClient.log, blobClient.store;
      ghost var endpoint := blobClient.endpoint;
      var exist := Exists(oldpath);
      assert Since(log0, log0) == [];
      if ConvertToAzurePath(oldpath).Success? {
        var (c, b) := ConvertToAzurePath(oldpath).value;
        ProbeKeepsStore(s0, endpoint, log0, c, b, exist.Success?);
      }
      if exist.Failure? {
        return Some(exist.error);
      }
      if !exist.value {
        return Some(OldPathMissing);
      }
      var src := ConvertToAzurePath(oldpath);
      if src.Failure? {
        assert false;
        return None;
      }
      var dst := ConvertToAzurePath(newpath);
      if dst.Failure? {
        return Some(dst.error);
      }
      var (srcC, srcB) := src.value;
      var (dstC, dstB) := dst.value;
      ghost var log1 := blobClient.log;
      if srcB == "" && dstB == "" {
        err := RenameContainer(srcC, dstC);
      } else if srcB != "" && dstB != "" {
        var _ := MoveBlob(dstC, dstB, srcC, srcB, false);
        err := None;
      } else {
        return Some(PathMismatch);
      }
      ExtendTwice(s0, endpoint, log0, log1, blobClient.log);
      assert Since(log0, blobClient.log)[1..] == Since(log1, blobClient.log);
    }

    /**
     * `Rename` as evidently intended: renaming a path onto itself only checks that the path
     * exists and changes nothing; any other rename is `Rename`.
     */
    method RenameGuarded(oldpath: string, newpath: string) returns (err: Option<string>)
      modifies blobClient
      ensures Extends(old(blobClient.log), blobClient.log)
      ensures var src := ConvertToAzurePath(oldpath);
        var added := Since(old(blobClient.log), blobClient.log);
        if src.Success? && src == ConvertToAzurePath(newpath) then
          var (c, b) := src.value;
          blobClient.store == old(blobClient.store)
          && |added| == 1 && added[0].call == ExistsCall(c, b)
          && (err.None? <==> added[0].ok && PathExists(old(blobClient.store), c, b))
        else
          RenameOutcome(blobClient.endpoint, old(blobClient.store), added, err, blobClient.store, oldpath, newpath)
    {
      var src := ConvertToAzurePath(oldpath);
      if src.Success? && src == ConvertToAzurePath(newpath) {
        ghost var log0 := blobClient.log;
        var exist := Exists(oldpath);
        assert Since(log0, blobClient.log) == blobClient.log[|log0|..];
        if exist.Failure? {
          return Some(exist.error);
        }
        if !exist.value {
          return Some(OldPathMissing);
        }
        return None;
      }
      err := Rename(oldpath, newpath);
    }

    /** The creation branch of `OpenWriteCloser`: the container, the empty blob, its content type; stopping at the first failure. */
    method CreateBlob(container: string, blob: string, ctype: string) returns (err: Option<string>)
      modifies blobClient
      ensures Extends(old(blobClient.log), blobClient.log)
      ensures Attempted(Since(old(blobClient.log), blobClient.log), CreatePlan(container, blob, ctype), err.None?)
      ensures blobClient.store == Run(old(blobClient.store), blobClient.endpoint, Since(old(blobClient.log), blobClient.log))
    {
      ghost var log0, s0 := blobClient.log, blobClient.store;
      ghost var endpoint := blobClient.endpoint;
      ghost var plan := CreatePlan(container, blob, ctype);
      assert Since(log0, log0) == [] && plan[..0] == [];
      err := blobClient.CreateContainerIfNotExists(container);
      Advance(s0, endpoint, log0, log0, plan, 0, Entry(plan[0], err.None?));
      if err.Some? {
        return;
      }
      ghost var log1 := blobClient.log;
      err := blobClient.CreateBlockBlob(container, blob, ctype);
      Advance(s0, endpoint, log0, log1, plan, 1, Entry(plan[1], err.None?));
      if err.Some? {
        return;
      }
      ghost var log2 := blobClient.log;
      err := blobClient.SetBlobProperties(container, blob, ctype);
      Advance(s0, endpoint, log0, log2, plan, 2, Entry(plan[2], err.None?));
      assert plan[..3] == plan;
    }

    /**
     * `OpenWriteCloser`: when the path does not exist, creates its container and the empty blob
     * with the content type `detectMime` gives; then opens the path for writing.
     */
    method OpenWriteCloser(name: string) returns (f: AzureFile?, err: Option<string>)
      modifies blobClient
      ensures Extends(old(blobClient.log), blobClient.log)
      ensures blobClient.store == Run(old(blobClient.store), blobClient.endpoint, Since(old(blobClient.log), blobClient.log))
      ensures err.None? <==> f != null
      ensures f != null ==> fresh(f) && f.path == name && f.client == blobClient
      ensures ConvertToAzurePath(name).Failure? ==>
        err == Some(ConvertToAzurePath(name).error) && blobClient.log == old(blobClient.log)
      ensures ConvertToAzurePath(name).Success? ==>
        var (c, b) := ConvertToAzurePath(name).value;
        var entries := Since(old(blobClient.log), blobClient.log);
        |entries| >= 1 && entries[0].call == ExistsCall(c, b)
        && (!entries[0].ok ==> err.Some? && |entries| == 1)
        && (entries[0].ok && PathExists(old(blobClient.store), c, b) ==> err.None? && |entries| == 1)
        && (entries[0].ok && !PathExists(old(blobClient.store), c, b) ==>
              Attempted(entries[1..], CreatePlan(c, b, DetectMime(b, typeByExtension)), err.None?))
    {
      ghost var log0, s0 := blobClient.log, blobClient.store;
      ghost var endpoint := blobClient.endpoint;
      var exist := Exists(name);
      assert Since(log0, log0) == [];
      if ConvertToAzurePath(name).Success? {
        var (c, b) := ConvertToAzurePath(name).value;
        ProbeKeepsStore(s0, endpoint, log0, c, b, exist.Success?);
      }
      if exist.Failure? {
        return null, Some(exist.error);
      }
      var converted := ConvertToAzurePath(name);
      if converted.Failure? {
        assert false;
        return null, None;
      }
      var (containerName, blobName) := converted.value;
      if !exist.value {
        ghost var log1 := blobClient.log;
        err := CreateBlob(containerName, blobName, DetectMime(blobName, typeByExtension));
        ExtendTwice(s0, endpoint, log0, log1, blobClient.log);
        assert Since(log0, blobClient.log)[1..] == Since(log1, blobClient.log);
        if err.Some? {
          return null, err;
        }
      }
      f := new AzureFile(name, blobClient);
      err := None;
    }
  }

  // ---------------------------------------------------------------------------
  // Writing

  /** `AzureFile`: a path opened for writing, and the service that holds it. */
  class AzureFile {
    const path: string
    const client: BlobService

    constructor (path: string, client: BlobService)
      ensures this.path == path && this.client == client
    {
      this.path := path;
      this.client := client;
    }

    /** The list of the committed blocks, each marked committed, in order. */
    static method CommittedRefs(committed: seq<string>) returns (refs: seq<BlockRef>)
      ensures refs == AmendList(committed, [])
    {
      refs := [];
      for i := 0 to |committed|
        invariant refs == AmendList(committed[..i], [])
      {
        assert committed[..i + 1] == committed[..i] + [committed[i]];
        refs := refs + [BlockRef(committed[i], Committed)];
      }
      assert committed[..|committed|] == committed;
    }

    /**
     * The read loop of `Write`: stages `b` chunk by chunk under the IDs numbered from `blocksLen`,
     * adding each to the list to commit, and stops at the first failure.
     */
    method StageChunks(cnt: string, blob: string, b: seq<byte>, ghost ids: seq<string>,
                       amendList0: seq<BlockRef>, blocksLen0: nat)
      returns (amendList: seq<BlockRef>, err: Option<string>)
      requires amendList0 == AmendList(ids, []) && blocksLen0 == |ids|
      modifies client
      ensures Extends(old(client.log), client.log)
      ensures client.store == Run(old(client.store), client.endpoint, Since(old(client.log), client.log))
      ensures var chunks := Chunks(b, MaxBlobBlockSize);
        Attempted(Since(old(client.log), client.log), StageCalls(cnt, blob, NewIds(|ids|, |chunks|), chunks), err.None?)
        && (err.None? ==> amendList == AmendList(ids, NewIds(|ids|, |chunks|)))
    {
      ghost var log0, s0 := client.log, client.store;
      ghost var endpoint := client.endpoint;
      amendList, err := amendList0, None;
      var blocksLen := blocksLen0;
      var pos := 0;
      ghost var k := 0;
      StagedStart(b, cnt, blob, ids, s0, endpoint, log0);
      while pos < |b|
        invariant Staged(b, pos, k, cnt, blob, ids, s0, endpoint, log0, client.log, client.store)
        invariant blocksLen == |ids| + k && amendList == AmendList(ids, NewIds(|ids|, k)) && err.None?
        decreases |b| - pos
      {
        var m := Min(MaxBlobBlockSize, |b| - pos);
        var data := b[pos..pos + m];
        var blockId := BlockId(blocksLen);
        ghost var log1, store1 := client.log, client.store;
        err := client.PutBlock(cnt, blob, blockId, data);
        StageNext(b, pos, k, cnt, blob, ids, s0, endpoint, log0, log1, store1, m, blockId, err.None?);
        if err.Some? {
          return;
        }
        amendList := amendList + [BlockRef(blockId, Uncommitted)];
        blocksLen := blocksLen + 1;
        pos := pos + m;
        k := k + 1;
      }
      StagedDone(b, k, cnt, blob, ids, s0, endpoint, log0, client.log, client.store);
    }

    /**
     * The requests of `Write` once the path is known: reads the committed block list, stages `b`,
     * and commits the old blocks followed by the new ones, stopping at the first failure.
     */
    method Append(cnt: string, blob: string, b: seq<byte>) returns (err: Option<string>)
      modifies client
      ensures Extends(old(client.log), client.log)
      ensures client.store == Run(old(client.store), client.endpoint, Since(old(client.log), client.log))
      ensures Attempted(Since(old(client.log), client.log),
                        WritePlan(cnt, blob, Ids(CommittedOf(old(client.store), cnt, blob)), b), err.None?)
      ensures err.None? && DistinctIds(CommittedOf(old(client.store), cnt, blob)) ==>
        Content(CommittedOf(client.store, cnt, blob)) == Content(CommittedOf(old(client.store), cnt, blob)) + b
      ensures err.None? ==> BlobIn(old(client.store), cnt, blob)
      ensures err.Some? ==> client.store.containers == old(client.store.containers)
    {
      ghost var log0, s0 := client.log, client.store;
      ghost var endpoint := client.endpoint;
      ghost var ids := Ids(CommittedOf(s0, cnt, blob));
      ghost var chunks := Chunks(b, MaxBlobBlockSize);
      ghost var plan := WritePlan(cnt, blob, ids, b);
      WritePlanParts(cnt, blob, ids, b);
      var blockList := client.GetBlockList(cnt, blob);
      assert blockList.Success? ==> BlobIn(s0, cnt, blob);
      Advance(s0, endpoint, log0, log0, plan, 0, Entry(plan[0], blockList.Success?));
      if blockList.Failure? {
        err := Some(blockList.error);
      } else {
        ghost var log1 := client.log;
        err := StageAndCommit(cnt, blob, b, blockList.value);
        assert plan[1..1 + (|plan| - 1)] == plan[1..];
        AdvancePart(s0, endpoint, log0, log1, client.log, plan, 1, |plan| - 1, err.None?);
      }
      WriteOutcome(s0, endpoint, Since(log0, client.log), cnt, blob, b, err.None?);
    }

    /**
     * The part of `Write` after the committed block list is read: stage `b` in blocks numbered
     * from `|committed|`, then commit the old blocks followed by the new ones, stopping at the
     * first failure.
     */
    method StageAndCommit(cnt: string, blob: string, b: seq<byte>, committed: seq<string>) returns (err: Option<string>)
      modifies client
      ensures Extends(old(client.log), client.log)
      ensures client.store == Run(old(client.store), client.endpoint, Since(old(client.log), client.log))
      ensures Attempted(Since(old(client.log), client.log), WritePlan(cnt, blob, committed, b)[1..], err.None?)
    {
      ghost var log0, s0 := client.log, client.store;
      ghost var endpoint := client.endpoint;
      ghost var chunks := Chunks(b, MaxBlobBlockSize);
      ghost var plan := WritePlan(cnt, blob, committed, b)[1..];
      WritePlanParts(cnt, blob, committed, b);
      assert plan[..0] == [] && plan[0..|chunks|] == WritePlan(cnt, blob, committed, b)[1..1 + |chunks|];
      assert Since(log0, log0) == [];
      var amendList := CommittedRefs(committed);
      amendList, err := StageChunks(cnt, blob, b, committed, amendList, |committed|);
      AdvancePart(s0, endpoint, log0, log0, client.log, plan, 0, |chunks|, err.None?);
      if err.None? {
        ghost var log2 := client.log;
        err := client.PutBlockList(cnt, blob, amendList);
        Advance(s0, endpoint, log0, log2, plan, |chunks|, Entry(plan[|chunks|], err.None?));
        assert plan[..|chunks| + 1] == plan;
      }
    }

    /**
     * `Write`: appends `b` to the blob by staging it in blocks and committing the old block list
     * followed by the new blocks. The requests follow `WritePlan` and stop at the first failure;
     * the answer is `len(b)` on success and 0 with the error otherwise.
     */
    method Write(b: seq<byte>) returns (n: nat, err: Option<string>)
      modifies client
      ensures n == (if err.None? then |b| else 0)
      ensures Extends(old(client.log), client.log)
      ensures client.store == Run(old(client.store), client.endpoint, Since(old(client.log), client.log))
      ensures |b| == 0 ==> err == Some(NeedContent) && client.log == old(client.log)
      ensures |b| > 0 && ConvertToAzurePath(path).Failure? ==>
        err == Some(ConvertToAzurePath(path).error) && client.log == old(client.log)
      ensures |b| > 0 && ConvertToAzurePath(path).Success? ==>
        var (c, bl) := ConvertToAzurePath(path).value;
        Attempted(Since(old(client.log), client.log),
                  WritePlan(c, bl, Ids(CommittedOf(old(client.store), c, bl)), b), err.None?)
      ensures err.None? ==>
        var (c, bl) := ConvertToAzurePath(path).value;
        DistinctIds(CommittedOf(old(client.store), c, bl)) ==>
          Content(CommittedOf(client.store, c, bl)) == Content(CommittedOf(old(client.store), c, bl)) + b
      ensures err.None? ==> BlobIn(old(client.store), ConvertToAzurePath(path).value.0, ConvertToAzurePath(path).value.1)
      ensures err.Some? ==> client.store.containers == old(client.store.containers)
    {
      assert Since(client.log, client.log) == [];
      if |b| == 0 {
        return 0, Some(NeedContent);
      }
      var converted := ConvertToAzurePath(path);
      if converted.Failure? {
        return 0, Some(converted.error);
      }
      var (cnt, blob) := converted.value;
      err := Append(cnt, blob, b);
      n := if err.None? then |b| else 0;
    }
  }
}
