/**
 * The text a listing turns into (lib/azure.go): `SprintBlob` renders one blob as a line of
 * tab-separated properties, and `SprintBlobListCh` emits, page by page, the virtual-directory
 * prefixes (unless the listing is recursive) followed by the blobs' lines.
 */
module BlobLines {

  import opened Common
  import opened GoStrings
  import opened BlockIds
  import opened Storage

  /** The fields of a blob's line, in order. */
  function Fields(e: BlobEntry): seq<string>
  {
    [e.name, e.blobType, Itoa(e.contentLength), e.contentType, e.lastModified]
  }

  /** `SprintBlob`: name, blob type, content length in decimal, content type and last-modified time, separated by tabs. */
  function SprintBlob(e: BlobEntry): (line: string)
    ensures Count(line, '\t') >= 4
  {
    JoinCount(Fields(e), '\t');
    Join(Fields(e), '\t')
  }

  /** Joining `k + 1` pieces puts at least `k` separators in. */
  lemma {:induction false} JoinCount(parts: seq<string>, sep: char)
    requires |parts| >= 1
    ensures Count(Join(parts, sep), sep) >= |parts| - 1
  {
    if |parts| > 1 {
      JoinCount(parts[1..], sep);
      var rest := Join(parts[1..], sep);
      CountAppend(parts[0] + [sep], rest, sep);
      CountAppend(parts[0], [sep], sep);
    }
  }

  predicate AllDigits(s: string)
  {
    |s| >= 1 && forall i :: 0 <= i < |s| ==> '0' <= s[i] <= '9'
  }

  /** Reads a blob back from its line: five tab-separated fields, the third a decimal number. */
  function ReadBlobLine(line: string): Option<BlobEntry>
  {
    var f := Split(line, '\t');
    if |f| == 5 && AllDigits(f[2]) then Some(BlobEntry(f[0], f[1], Value(f[2]), f[3], f[4])) else None
  }

  predicate NoTabs(e: BlobEntry)
  {
    '\t' !in e.name && '\t' !in e.blobType && '\t' !in e.contentType && '\t' !in e.lastModified
  }

  /** A blob whose text properties have no tab is rendered without loss: its line reads back to it. */
  lemma ReadSprintBlob(e: BlobEntry)
    requires NoTabs(e)
    ensures ReadBlobLine(SprintBlob(e)) == Some(e)
  {
    var f := Fields(e);
    var digits := Itoa(e.contentLength);
    assert forall i :: 0 <= i < |digits| ==> digits[i] != '\t';
    assert forall k :: 0 <= k < 5 ==> '\t' !in f[k];
    JoinSplit(f, '\t');
    assert Split(SprintBlob(e), '\t') == f;
    assert AllDigits(f[2]);
    ValueItoa(e.contentLength);
  }

  /** Distinct blobs without tabs get distinct lines. */
  lemma SprintBlobInjective(e1: BlobEntry, e2: BlobEntry)
    requires NoTabs(e1) && NoTabs(e2)
    ensures SprintBlob(e1) == SprintBlob(e2) <==> e1 == e2
  {
    ReadSprintBlob(e1);
    ReadSprintBlob(e2);
  }

  /** The lines of one page: its prefixes unless the listing is recursive, then one line per blob. */
  function PageLines(page: BlobListResponse, recursive: bool): (lines: seq<string>)
    ensures var p := if recursive then 0 else |page.blobPrefixes|;
      |lines| == p + |page.blobs|
      && (forall i :: 0 <= i < p ==> lines[i] == page.blobPrefixes[i])
      && (forall i :: 0 <= i < |page.blobs| ==> lines[p + i] == SprintBlob(page.blobs[i]))
  {
    (if recursive then [] else page.blobPrefixes)
    + seq(|page.blobs|, i requires 0 <= i < |page.blobs| => SprintBlob(page.blobs[i]))
  }

  /** `SprintBlobListCh`: the lines of the pages in the order the pages arrive. */
  function Lines(pages: seq<BlobListResponse>, recursive: bool): seq<string>
  {
    if pages == [] then [] else PageLines(pages[0], recursive) + Lines(pages[1..], recursive)
  }

  /** Emitting two runs of pages one after the other emits their lines one after the other. */
  lemma {:induction false} LinesAppend(a: seq<BlobListResponse>, b: seq<BlobListResponse>, recursive: bool)
    ensures Lines(a + b, recursive) == Lines(a, recursive) + Lines(b, recursive)
  {
    if a == [] {
      assert a + b == b;
    } else {
      assert (a + b)[1..] == a[1..] + b;
      LinesAppend(a[1..], b, recursive);
    }
  }

  /** The number of lines counted from the pages: every blob, and every prefix unless recursive. */
  function LineCount(pages: seq<BlobListResponse>, recursive: bool): nat
  {
    if pages == [] then 0
    else (if recursive then 0 else |pages[0].blobPrefixes|) + |pages[0].blobs| + LineCount(pages[1..], recursive)
  }

  lemma {:induction false} LinesLength(pages: seq<BlobListResponse>, recursive: bool)
    ensures |Lines(pages, recursive)| == LineCount(pages, recursive)
  {
    if pages != [] {
      LinesLength(pages[1..], recursive);
    }
  }

  /** A recursive listing emits only blob lines: every line reads back to a blob of some page. */
  lemma {:induction false} RecursiveLinesAreBlobs(pages: seq<BlobListResponse>, line: string)
    requires forall k :: 0 <= k < |pages| ==> forall e :: e in pages[k].blobs ==> NoTabs(e)
    requires line in Lines(pages, true)
    ensures exists k, e :: 0 <= k < |pages| && e in pages[k].blobs && ReadBlobLine(line) == Some(e)
  {
    var first := PageLines(pages[0], true);
    if line in first {
      var i :| 0 <= i < |first| && first[i] == line;
      var e := pages[0].blobs[i];
      ReadSprintBlob(e);
      assert ReadBlobLine(line) == Some(e);
    } else {
      assert line in Lines(pages[1..], true);
      RecursiveLinesAreBlobs(pages[1..], line);
      var k, e :| 0 <= k < |pages[1..]| && e in pages[1..][k].blobs && ReadBlobLine(line) == Some(e);
      assert pages[1..][k] == pages[k + 1];
    }
  }
}
