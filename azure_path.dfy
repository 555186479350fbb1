/**
 * Path handling of the storage client (lib/azure.go): splitting `container/blob` paths, and
 * choosing a blob's content type from its extension.
 */
module AzurePath {

  import opened Common
  import opened GoStrings

  /** The longest container name the client accepts, in bytes of UTF-8 (Go's `len`). */
  const MaxContainerLength := 32

  const ContainerTooLong := "azureClient : the length of container must be shorter than equal 32"

  /** The first `/`-separated segment of `s` is the text before the first `/`. */
  lemma SplitFirst(s: string, sep: char)
    ensures Split(s, sep)[0] == if sep in s then s[..IndexOf(s, sep)] else s
    ensures |Split(s, sep)| > 1 <==> sep in s
  {
  }

  /** The container part of a path: the text before the first `/`, or all of it. */
  function ContainerPart(name: string): string
  {
    if '/' in name then name[..IndexOf(name, '/')] else name
  }

  /** The container part is the longest prefix of the path without `/`. */
  lemma ContainerPartIsLongestPrefix(name: string)
    ensures ContainerPart(name) <= name && '/' !in ContainerPart(name)
    ensures |ContainerPart(name)| < |name| ==> name[|ContainerPart(name)|] == '/'
  {
  }

  /**
   * `convertToAzurePath`: the container is the text before the first `/`, the blob the text after
   * it (empty without a `/`). It fails exactly when the container part is longer than 32 bytes.
   */
  function ConvertToAzurePath(name: string): (r: Result<(string, string)>)
    ensures r.Failure? <==> Utf8Length(ContainerPart(name)) > MaxContainerLength
    ensures r.Failure? ==> r.error == ContainerTooLong
    ensures r.Success? ==> '/' !in r.value.0 && Utf8Length(r.value.0) <= MaxContainerLength
    ensures r.Success? && '/' in name ==> name == r.value.0 + "/" + r.value.1
    ensures r.Success? && '/' !in name ==> r.value == (name, "")
  {
    var afterSplit := Split(name, '/');
    SplitFirst(name, '/');
    SplitPieces(name, '/');
    if Utf8Length(afterSplit[0]) > MaxContainerLength then
      Failure(ContainerTooLong)
    else
      var blobName := if |afterSplit| > 1 then name[|afterSplit[0]| + 1..] else "";
      if '/' in name then
        var i := IndexOf(name, '/');
        assert name == name[..i] + "/" + name[i + 1..];
        Success((afterSplit[0], blobName))
      else
        Success((afterSplit[0], blobName))
  }

  /** Joining a container and a blob name with `/` and converting back gives the two parts. */
  lemma ConvertJoined(container: string, blob: string)
    requires '/' !in container && Utf8Length(container) <= MaxContainerLength
    ensures ConvertToAzurePath(container + "/" + blob) == Success((container, blob))
  {
    var name := container + "/" + blob;
    assert name == container + ['/'] + blob;
    IndexOfAfter(container, '/', blob);
    assert name[..|container|] == container && name[|container| + 1..] == blob;
  }

  /** A bare container name converts to itself and an empty blob name. */
  lemma ConvertContainer(container: string)
    requires '/' !in container && Utf8Length(container) <= MaxContainerLength
    ensures ConvertToAzurePath(container) == Success((container, ""))
  {
  }

  /**
   * The limit counts bytes: seventeen `é` are only seventeen characters but thirty-four bytes,
   * so a path with them as its container is refused.
   */
  lemma ConvertCountsBytes()
    ensures ConvertToAzurePath(seq(17, _ => '\U{e9}') + "/x") == Failure(ContainerTooLong)
  {
    var c := seq(17, _ => '\U{e9}');
    Utf8LengthRepeat('\U{e9}', 17);
    var name := c + "/x";
    assert name == c + ['/'] + "x";
    IndexOfAfter(c, '/', "x");
    assert ContainerPart(name) == c;
  }

  // ---------------------------------------------------------------------------
  // Content types

  /** The lowercased text after the last `.` of a blob name (the whole name without a `.`). */
  function Extension(blobName: string): string
  {
    var parts := Split(blobName, '.');
    ToLower(parts[|parts| - 1])
  }

  /** The extensions `detectMime` maps itself, before asking the system table. */
  function KnownType(ext: string): Option<string>
  {
    if ext == "csv" then Some("text/csv")
    else if ext == "json" then Some("application/json")
    else if ext == "avro" then Some("avro/binary")
    else if ext == "gz" then Some("application/gzip")
    else None
  }

  const FallbackType := "application/octet-stream"

  /** The media type without its `;` parameters: the text before the first `;`. */
  function StripParams(t: string): (r: string)
    ensures ';' !in r && r <= t && (r == t || t[|r|] == ';')
  {
    SplitFirst(t, ';');
    Split(t, ';')[0]
  }

  /** The type for an extension the source does not map itself: the system's answer, or the fallback, without parameters. */
  function SystemType(ext: string, typeByExtension: string -> string): (r: string)
    ensures var t := typeByExtension("." + ext);
      r == StripParams(if t == "" then FallbackType else t)
  {
    var ctype := typeByExtension("." + ext);
    StripParams(if ctype == "" then FallbackType else ctype)
  }

  /**
   * `detectMime`: the content type for a blob name. `typeByExtension` stands for the system's
   * extension table (`mime.TypeByExtension`), which answers "" for an unknown extension.
   */
  function DetectMime(blobName: string, typeByExtension: string -> string): (r: string)
    ensures ';' !in r
    ensures KnownType(Extension(blobName)).Some? ==> r == KnownType(Extension(blobName)).value
    ensures KnownType(Extension(blobName)).None? ==> r == SystemType(Extension(blobName), typeByExtension)
  {
    var parts := Split(blobName, '.');
    var ext := ToLower(parts[|parts| - 1]);
    match KnownType(ext)
    case Some(t) => t
    case None => SystemType(ext, typeByExtension)
  }

  /** Only the last extension matters: a name and the same name with more in front get one type. */
  lemma DetectMimeLastExtension(front: string, ext: string, typeByExtension: string -> string)
    requires '.' !in ext
    ensures DetectMime(front + "." + ext, typeByExtension) == DetectMime(ext, typeByExtension)
  {
    assert front + "." + ext == front + ['.'] + ext;
    SplitSnoc(front, '.', ext);
  }

  /** The extension is matched without regard to ASCII case. */
  lemma DetectMimeIgnoresCase(ext: string, typeByExtension: string -> string)
    requires '.' !in ext
    ensures DetectMime(ext, typeByExtension) == DetectMime(ToLower(ext), typeByExtension)
  {
    LowerIdempotent(ext);
    assert forall k :: 0 <= k < |ext| ==> ToLower(ext)[k] != '.';
  }

  lemma LowerIdempotent(s: string)
    ensures ToLower(ToLower(s)) == ToLower(s)
  {
  }

  /** A name without a dot or capitals is its own extension. */
  lemma BareExtension(ext: string)
    requires '.' !in ext && forall k :: 0 <= k < |ext| ==> !('A' <= ext[k] <= 'Z')
    ensures Extension(ext) == ext
  {
  }

  lemma StripParamsAt(a: string, b: string)
    requires ';' !in a
    ensures StripParams(a + [';'] + b) == a
  {
    SplitCons(a, ';', b);
  }

  lemma FallbackHasNoParams()
    ensures ';' !in FallbackType
  {
    assert forall k :: 0 <= k < |FallbackType| ==> FallbackType[k] != ';';
  }

  /** The system types of the source's unit test carry no parameters of their own. */
  lemma LiteralTypesHaveNoParams()
    ensures ';' !in "image/jpeg" && ';' !in "text/html"
  {
    var jpeg, html := "image/jpeg", "text/html";
    assert forall k :: 0 <= k < |jpeg| ==> jpeg[k] != ';';
    assert forall k :: 0 <= k < |html| ==> html[k] != ';';
  }

  lemma StripParamsNone(t: string)
    requires ';' !in t
    ensures StripParams(t) == t
  {
  }

  lemma DetectMimeKnown(ext: string, typeByExtension: string -> string)
    requires '.' !in ext && forall k :: 0 <= k < |ext| ==> !('A' <= ext[k] <= 'Z')
    requires KnownType(ext).Some?
    ensures DetectMime(ext, typeByExtension) == KnownType(ext).value
  {
    BareExtension(ext);
  }

  lemma DetectMimeSystem(ext: string, typeByExtension: string -> string)
    requires '.' !in ext && forall k :: 0 <= k < |ext| ==> !('A' <= ext[k] <= 'Z')
    requires KnownType(ext).None?
    ensures DetectMime(ext, typeByExtension) == SystemType(ext, typeByExtension)
  {
    BareExtension(ext);
  }

  /** The extensions of the source's unit test that the source maps itself. */
  lemma DetectMimeTableCases(typeByExtension: string -> string)
    ensures DetectMime("csv", typeByExtension) == "text/csv"
    ensures DetectMime("json", typeByExtension) == "application/json"
    ensures DetectMime("avro", typeByExtension) == "avro/binary"
    ensures DetectMime("gz", typeByExtension) == "application/gzip"
  {
    DetectMimeKnown("csv", typeByExtension);
    DetectMimeKnown("json", typeByExtension);
    DetectMimeKnown("avro", typeByExtension);
    DetectMimeKnown("gz", typeByExtension);
  }

  /** A system type with parameters loses them: `.html` of the source's unit test. */
  lemma DetectMimeHtml(typeByExtension: string -> string)
    requires typeByExtension(".html") == "text/html" + [';'] + " charset=utf-8"
    ensures DetectMime("html", typeByExtension) == "text/html"
  {
    DetectMimeSystem("html", typeByExtension);
    assert "." + "html" == ".html";
    LiteralTypesHaveNoParams();
    StripParamsAt("text/html", " charset=utf-8");
  }

  /** A system type without parameters is kept: `.jpg` of the source's unit test. */
  lemma DetectMimeJpg(typeByExtension: string -> string)
    requires typeByExtension(".jpg") == "image/jpeg"
    ensures DetectMime("jpg", typeByExtension) == "image/jpeg"
  {
    DetectMimeSystem("jpg", typeByExtension);
    assert "." + "jpg" == ".jpg";
    LiteralTypesHaveNoParams();
    StripParamsNone("image/jpeg");
  }

  /** An extension the system does not know falls back: the empty name of the source's unit test. */
  lemma DetectMimeEmpty(typeByExtension: string -> string)
    requires typeByExtension(".") == ""
    ensures DetectMime("", typeByExtension) == FallbackType
  {
    DetectMimeSystem("", typeByExtension);
    assert "." + "" == ".";
    FallbackHasNoParams();
    StripParamsNone(FallbackType);
  }
}
