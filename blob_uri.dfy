/**
 * Blob addresses (lib/blob.go): recognising a blob URI, parsing it into a `BlobContext`,
 * extracting the blob name, and validating the context's fields.
 *
 * Two address forms are recognised:
 *   http[s]://<account>.<service>.<endpoint>/<container>/<blob>?<query>
 *   wasb[s]://<container>@<account>.<service>.<endpoint>/<blob>?<query>
 * The Go code indexes the results of its splits without bounds checks; where it would
 * panic with an index out of range, the model returns `Failure(IndexOutOfRange)`.
 */
module BlobUri {

  import opened Common
  import opened GoStrings

  /** Connection and addressing data for one blob container. */
  datatype BlobContext = BlobContext(
    accountName: string,
    accountKey: string,
    container: string,
    entryPoint: string,
    useHTTPS: bool)

  const NotABlob := "not an blob"
  const IndexOutOfRange := "runtime error: index out of range"

  /** The prefix test of `isBlobURI`. */
  predicate IsBlobURI(uri: string)
  {
    "https://" <= uri || "http://" <= uri || "wasb://" <= uri || "wasbs://" <= uri
  }

  /** The scheme a recognised URI starts with. */
  function Scheme(uri: string): (s: string)
    requires IsBlobURI(uri)
    ensures |s| + 3 <= |uri| && uri == s + "://" + uri[|s| + 3..]
    ensures s == "http" || s == "https" || s == "wasb" || s == "wasbs"
  {
    var s := if "https://" <= uri then "https"
      else if "http://" <= uri then "http"
      else if "wasbs://" <= uri then "wasbs"
      else "wasb";
    assert uri[..|s| + 3] == s + "://";
    s
  }

  /** `strings.SplitN(uri, ":", 2)[0]`: the text before the first colon. */
  function Protocol(uri: string): (p: string)
    ensures IsBlobURI(uri) ==> p == Scheme(uri)
  {
    if IsBlobURI(uri) then
      var s := Scheme(uri);
      assert uri == s + [':'] + uri[|s| + 1..];
      SplitNCons(s, ':', uri[|s| + 1..], 2);
      SplitN(uri, ':', 2)[0]
    else
      SplitN(uri, ':', 2)[0]
  }

  /** What follows `scheme://` in a recognised URI. */
  function AfterScheme(uri: string): string
    requires IsBlobURI(uri)
  {
    uri[|Scheme(uri)| + 3..]
  }

  lemma SchemeSlashes(uri: string)
    requires IsBlobURI(uri)
    ensures uri == (Scheme(uri) + ":") + ['/'] + ([] + ['/'] + AfterScheme(uri))
    ensures '/' !in Scheme(uri) + ":"
  {
    var s := Scheme(uri);
    assert s + "://" == (s + ":") + ['/'] + ['/'];
    if s == "http" {
      assert s + ":" == "http:";
    } else if s == "https" {
      assert s + ":" == "https:";
    } else if s == "wasb" {
      assert s + ":" == "wasb:";
    } else {
      assert s + ":" == "wasbs:";
    }
  }

  /** A recognised URI splits on `/` into the scheme with its colon, an empty piece, and the pieces of the rest. */
  lemma SplitAfterScheme(uri: string)
    requires IsBlobURI(uri)
    ensures Split(uri, '/') == [Scheme(uri) + ":", ""] + Split(AfterScheme(uri), '/')
  {
    var a, rest := Scheme(uri) + ":", AfterScheme(uri);
    var t := [] + ['/'] + rest;
    SchemeSlashes(uri);
    SplitCons(a, '/', t);
    SplitCons([], '/', rest);
    var pieces := Split(rest, '/');
    assert [a] + ([[]] + pieces) == [a, ""] + pieces;
  }

  lemma SplitNAfterScheme(uri: string, n: nat)
    requires IsBlobURI(uri) && n >= 3
    ensures SplitN(uri, '/', n) == [Scheme(uri) + ":", ""] + SplitN(AfterScheme(uri), '/', n - 2)
  {
    var a, rest := Scheme(uri) + ":", AfterScheme(uri);
    var t := [] + ['/'] + rest;
    SchemeSlashes(uri);
    SplitNCons(a, '/', t, n);
    SplitNCons([], '/', rest, n - 1);
    var pieces := SplitN(rest, '/', n - 2);
    assert [a] + ([[]] + pieces) == [a, ""] + pieces;
  }

  /** `ParseBlobURI`: the account, container and endpoint of a recognised URI, and whether its scheme is a secure one. */
  function ParseBlobURI(uri: string): (r: Result<BlobContext>)
    ensures r == Failure(NotABlob) <==> !IsBlobURI(uri)
    ensures r.Success? ==> r.value.accountKey == ""
    ensures r.Success? ==> (r.value.useHTTPS <==> "https://" <= uri || "wasbs://" <= uri)
  {
    if !IsBlobURI(uri) then Failure(NotABlob)
    else
      var protocol := Protocol(uri);
      var useHTTPS := HasSuffix(protocol, "s");
      if "http" <= protocol then
        var u := Split(uri, '/');
        if |u| < 4 then Failure(IndexOutOfRange)
        else
          var ud := SplitN(u[2], '.', 3);
          if |ud| < 3 then Failure(IndexOutOfRange)
          else Success(BlobContext(ud[0], "", u[3], ud[2], useHTTPS))
      else if "wasb" <= protocol then
        var u := Split(uri, '/');
        SplitAfterScheme(uri);
        assert |u| >= 3;
        var ua := SplitN(u[2], '@', 2);
        if |ua| < 2 then Failure(IndexOutOfRange)
        else
          var ud := SplitN(ua[1], '.', 3);
          if |ud| < 3 then Failure(IndexOutOfRange)
          else Success(BlobContext(ud[0], "", ua[0], ud[2], useHTTPS))
      else
        Success(BlobContext("", "", "", "", useHTTPS))
  }

  /** Which `/`-separated piece holds the blob name: the 5th for http[s], the 4th for wasb[s]. */
  function NamePiece(uri: string): nat
  {
    if "http" <= uri then 4 else 3
  }

  /**
   * `ParseBlobName`: the text after the container, cut at the first `?`. It fails exactly when the
   * URI is not recognised or has too few slashes to reach the blob name.
   */
  function ParseBlobName(uri: string): (r: Result<string>)
    ensures r == Failure(NotABlob) <==> !IsBlobURI(uri)
    ensures r.Failure? <==> !IsBlobURI(uri) || Count(uri, '/') < NamePiece(uri)
    ensures r.Success? ==> '?' !in r.value
  {
    if !IsBlobURI(uri) then Failure(NotABlob)
    else
      var i := if "http" <= uri then 4 else 3;
      var u := SplitN(uri, '/', i + 1);
      SplitNCount(uri, '/', i + 1);
      if |u| <= i then Failure(IndexOutOfRange)
      else
        var q := SplitN(u[i], '?', 2);
        assert '?' in u[i] ==> q[0] == u[i][..IndexOf(u[i], '?')];
        Success(q[0])
  }

  /** A parsed context names a container free of `/` and an account free of `.` and `/`, on an endpoint free of `/`. */
  lemma ParsedFieldsClean(uri: string)
    requires ParseBlobURI(uri).Success?
    ensures var b := ParseBlobURI(uri).value;
      '/' !in b.container && '.' !in b.accountName && '/' !in b.accountName && '/' !in b.entryPoint
  {
    var u := Split(uri, '/');
    SplitPieces(uri, '/');
    SplitAfterScheme(uri);
    assert '/' !in u[2];
    if "http" <= Protocol(uri) {
      SplitNPieces(u[2], '.', 3);
    } else {
      var ua := SplitN(u[2], '@', 2);
      SplitNPieces(u[2], '@', 2);
      assert '/' !in ua[1];
      SplitNPieces(ua[1], '.', 3);
    }
  }

  /** `http[s]://<account>.<service>.<endpoint>/<container><rest>`. */
  function HostStyleURI(scheme: string, account: string, service: string, endpoint: string,
                        container: string, rest: string): string
  {
    scheme + "://" + Host(account, service, endpoint) + "/" + container + rest
  }

  /** `<account>.<service>.<endpoint>`. */
  function Host(account: string, service: string, endpoint: string): string
  {
    account + "." + service + "." + endpoint
  }

  /** `wasb[s]://<container>@<account>.<service>.<endpoint><rest>`. */
  function WasbStyleURI(scheme: string, container: string, account: string, service: string,
                        endpoint: string, rest: string): string
  {
    scheme + "://" + container + "@" + Host(account, service, endpoint) + rest
  }

  /** The parts of a URI that the parser can take apart again. */
  predicate WellFormedParts(account: string, service: string, endpoint: string, container: string, rest: string)
  {
    '.' !in account && '/' !in account && '.' !in service && '/' !in service
    && '/' !in endpoint && '/' !in container && (rest == "" || rest[0] == '/')
  }

  lemma HostHasNoSlash(a: string, sv: string, e: string)
    requires '/' !in a && '/' !in sv && '/' !in e
    ensures '/' !in Host(a, sv, e)
  {
  }

  lemma AuthoritySplit(container: string, host: string)
    requires '@' !in container
    ensures SplitN(container + "@" + host, '@', 2) == [container, host]
  {
    assert container + "@" + host == container + ['@'] + host;
    SplitNCons(container, '@', host, 2);
  }

  /** `a.s.e` splits on its first two dots into its three parts. */
  lemma HostSplit(a: string, sv: string, e: string)
    requires '.' !in a && '.' !in sv
    ensures SplitN(Host(a, sv, e), '.', 3) == [a, sv, e]
  {
    assert Host(a, sv, e) == a + ['.'] + (sv + ['.'] + e);
    SplitNCons(a, '.', sv + ['.'] + e, 3);
    SplitNCons(sv, '.', e, 2);
  }

  /** Splitting `c<rest>` on `/` yields `c` first when `rest` is empty or starts a new piece. */
  lemma FirstPiece(c: string, rest: string)
    requires '/' !in c && (rest == "" || rest[0] == '/')
    ensures Split(c + rest, '/')[0] == c
  {
    if rest != "" {
      assert c + rest == c + ['/'] + rest[1..];
      SplitCons(c, '/', rest[1..]);
    } else {
      assert c + rest == c;
    }
  }

  /** A URI built from a recognised scheme splits into the scheme's two pieces and the pieces of the tail. */
  lemma SchemeTail(scheme: string, tail: string)
    requires scheme in {"http", "https", "wasb", "wasbs"}
    ensures var uri := scheme + "://" + tail;
      IsBlobURI(uri) && Scheme(uri) == scheme
      && Split(uri, '/') == [scheme + ":", ""] + Split(tail, '/')
  {
    var uri := scheme + "://" + tail;
    assert uri[..|scheme| + 3] == scheme + "://";
    assert uri[|scheme| + 3..] == tail;
    assert uri[0] == scheme[0];
    if scheme == "http" || scheme == "wasb" { assert uri[4] == ':'; }
    SplitAfterScheme(uri);
  }

  lemma HostTail(host: string, container: string, rest: string)
    requires '/' !in host && '/' !in container && (rest == "" || rest[0] == '/')
    ensures var u := Split(host + "/" + container + rest, '/');
      |u| >= 2 && u[0] == host && u[1] == container
  {
    assert host + "/" + container + rest == host + ['/'] + (container + rest);
    SplitCons(host, '/', container + rest);
    FirstPiece(container, rest);
  }

  /** `<scheme>://<host>/<container><rest>`, with no `/` in the host or the container, has the host and the container as its third and fourth pieces. */
  lemma SchemeHostSplit(scheme: string, host: string, container: string, rest: string)
    requires scheme == "http" || scheme == "https"
    requires '/' !in host && '/' !in container && (rest == "" || rest[0] == '/')
    ensures var uri := scheme + "://" + (host + "/" + container + rest);
      IsBlobURI(uri) && Scheme(uri) == scheme && |Split(uri, '/')| >= 4
      && Split(uri, '/')[2] == host && Split(uri, '/')[3] == container
  {
    var tail := host + "/" + container + rest;
    SchemeTail(scheme, tail);
    HostTail(host, container, rest);
    var u, v := Split(scheme + "://" + tail, '/'), Split(tail, '/');
    assert u[2] == v[0] && u[3] == v[1];
  }

  lemma HostStylePieces(scheme: string, account: string, service: string, endpoint: string,
                        container: string, rest: string)
    requires scheme == "http" || scheme == "https"
    requires WellFormedParts(account, service, endpoint, container, rest)
    ensures var uri := HostStyleURI(scheme, account, service, endpoint, container, rest);
      IsBlobURI(uri) && Scheme(uri) == scheme && |Split(uri, '/')| >= 4
      && Split(uri, '/')[2] == Host(account, service, endpoint) && Split(uri, '/')[3] == container
  {
    var host := Host(account, service, endpoint);
    HostHasNoSlash(account, service, endpoint);
    HostStyleTail(scheme, host, container, rest);
    SchemeHostSplit(scheme, host, container, rest);
  }

  /** Parsing a host-style URI recovers the account, the container and the endpoint it was built from. */
  lemma ParseHostStyleURI(scheme: string, account: string, service: string, endpoint: string,
                          container: string, rest: string)
    requires scheme == "http" || scheme == "https"
    requires WellFormedParts(account, service, endpoint, container, rest)
    ensures ParseBlobURI(HostStyleURI(scheme, account, service, endpoint, container, rest))
      == Success(BlobContext(account, "", container, endpoint, scheme == "https"))
  {
    HostStylePieces(scheme, account, service, endpoint, container, rest);
    HostSplit(account, service, endpoint);
  }

  lemma WasbStylePieces(scheme: string, container: string, account: string, service: string,
                        endpoint: string, rest: string)
    requires scheme == "wasb" || scheme == "wasbs"
    requires WellFormedParts(account, service, endpoint, container, rest)
    ensures var uri := WasbStyleURI(scheme, container, account, service, endpoint, rest);
      IsBlobURI(uri) && Scheme(uri) == scheme && |Split(uri, '/')| >= 3
      && Split(uri, '/')[2] == container + "@" + Host(account, service, endpoint)
  {
    var authority := container + "@" + Host(account, service, endpoint);
    var tail := authority + rest;
    var uri := WasbStyleURI(scheme, container, account, service, endpoint, rest);
    assert uri == scheme + "://" + tail;
    SchemeTail(scheme, tail);
    HostHasNoSlash(account, service, endpoint);
    assert '/' !in authority;
    FirstPiece(authority, rest);
    var u, v := Split(uri, '/'), Split(tail, '/');
    assert u == [scheme + ":", ""] + v;
    assert u[2] == v[0];
  }

  /** Parsing a wasb-style URI recovers the container, the account and the endpoint it was built from. */
  lemma ParseWasbStyleURI(scheme: string, container: string, account: string, service: string,
                          endpoint: string, rest: string)
    requires scheme == "wasb" || scheme == "wasbs"
    requires WellFormedParts(account, service, endpoint, container, rest) && '@' !in container
    ensures ParseBlobURI(WasbStyleURI(scheme, container, account, service, endpoint, rest))
      == Success(BlobContext(account, "", container, endpoint, scheme == "wasbs"))
  {
    WasbStylePieces(scheme, container, account, service, endpoint, rest);
    var uri := WasbStyleURI(scheme, container, account, service, endpoint, rest);
    var host := Host(account, service, endpoint);
    assert Protocol(uri) == scheme && !("http" <= scheme) && "wasb" <= scheme;
    AuthoritySplit(container, host);
    HostSplit(account, service, endpoint);
    var ua := SplitN(Split(uri, '/')[2], '@', 2);
    assert ua == [container, host];
    assert SplitN(ua[1], '.', 3) == [account, service, endpoint];
  }

  lemma SchemeTailN(scheme: string, tail: string, n: nat)
    requires scheme in {"http", "https", "wasb", "wasbs"} && n >= 3
    ensures var uri := scheme + "://" + tail;
      IsBlobURI(uri) && SplitN(uri, '/', n) == [scheme + ":", ""] + SplitN(tail, '/', n - 2)
  {
    SchemeTail(scheme, tail);
    var uri := scheme + "://" + tail;
    assert uri[|scheme| + 3..] == tail;
    SplitNAfterScheme(uri, n);
  }

  /** The text before the first `?` of `path<query>` is `path` when the query is empty or starts with `?`. */
  lemma CutQuery(path: string, query: string)
    requires '?' !in path && (query == "" || query[0] == '?')
    ensures SplitN(path + query, '?', 2)[0] == path
  {
    if query == "" {
      assert path + query == path;
    } else {
      assert path + query == path + ['?'] + query[1..];
      SplitNCons(path, '?', query[1..], 2);
    }
  }

  lemma HttpPrefix(scheme: string, tail: string)
    requires scheme in {"http", "https", "wasb", "wasbs"}
    ensures "http" <= scheme + "://" + tail <==> scheme == "http" || scheme == "https"
  {
    var uri := scheme + "://" + tail;
    assert uri[0] == scheme[0];
    if scheme == "http" || scheme == "https" {
      assert uri[..4] == scheme[..4];
    }
  }

  lemma HostTailN(host: string, container: string, x: string)
    requires '/' !in host && '/' !in container
    ensures SplitN(host + "/" + container + "/" + x, '/', 3) == [host, container, x]
  {
    assert host + "/" + container + "/" + x == host + ['/'] + (container + ['/'] + x);
    SplitNCons(host, '/', container + ['/'] + x, 3);
    SplitNCons(container, '/', x, 2);
  }

  /** A host-style URI is its scheme and `://` followed by the host, the container and the rest. */
  lemma HostStyleTail(scheme: string, host: string, container: string, rest: string)
    ensures scheme + "://" + host + "/" + container + rest == scheme + "://" + (host + "/" + container + rest)
  {
    var a := scheme + "://";
    AppendAssoc(a, host + "/" + container, rest);
    AppendAssoc(a, host + "/", container);
    AppendAssoc(a, host, "/");
  }

  /** `<scheme>://<host>/<container>/<x>`, with no `/` in the host or the container, splits into five pieces, the last `x`. */
  lemma SchemeHostPieces(scheme: string, host: string, container: string, x: string)
    requires scheme == "http" || scheme == "https"
    requires '/' !in host && '/' !in container
    ensures var uri := scheme + "://" + (host + "/" + container + "/" + x);
      IsBlobURI(uri) && "http" <= uri && |SplitN(uri, '/', 5)| == 5 && SplitN(uri, '/', 5)[4] == x
  {
    var tail := host + "/" + container + "/" + x;
    SchemeTailN(scheme, tail, 5);
    HttpPrefix(scheme, tail);
    HostTailN(host, container, x);
    var u, v := SplitN(scheme + "://" + tail, '/', 5), SplitN(tail, '/', 3);
    assert |v| == 3 && v[2] == x;
    assert u[4] == v[2];
  }

  lemma HostStyleNamePiece(scheme: string, account: string, service: string, endpoint: string,
                           container: string, x: string)
    requires scheme == "http" || scheme == "https"
    requires WellFormedParts(account, service, endpoint, container, "")
    ensures var uri := HostStyleURI(scheme, account, service, endpoint, container, "/" + x);
      IsBlobURI(uri) && "http" <= uri && |SplitN(uri, '/', 5)| == 5 && SplitN(uri, '/', 5)[4] == x
  {
    var host := Host(account, service, endpoint);
    HostHasNoSlash(account, service, endpoint);
    HostStyleTail(scheme, host, container, "/" + x);
    AppendAssoc(host + "/" + container, "/", x);
    SchemeHostPieces(scheme, host, container, x);
  }

  /** The blob name of a host-style URI is the path after the container, without the query. */
  lemma HostStyleBlobName(scheme: string, account: string, service: string, endpoint: string,
                          container: string, path: string, query: string)
    requires scheme == "http" || scheme == "https"
    requires WellFormedParts(account, service, endpoint, container, "")
    requires '?' !in path && (query == "" || query[0] == '?')
    ensures ParseBlobName(HostStyleURI(scheme, account, service, endpoint, container, "/" + (path + query)))
      == Success(path)
  {
    HostStyleNamePiece(scheme, account, service, endpoint, container, path + query);
    CutQuery(path, query);
  }

  /** A URI `<scheme>://<authority>/<x>` with no `/` in the authority splits into the scheme, an empty piece, the authority and `x`. */
  lemma SchemeAuthorityPieces(scheme: string, authority: string, x: string)
    requires scheme in {"http", "https", "wasb", "wasbs"} && '/' !in authority
    ensures var uri := scheme + "://" + (authority + ("/" + x));
      IsBlobURI(uri) && SplitN(uri, '/', 4) == [scheme + ":", "", authority, x]
  {
    var tail := authority + ("/" + x);
    SchemeTailN(scheme, tail, 4);
    AppendAssoc(authority, ['/'], x);
    SplitNTwo(authority, '/', x);
  }

  /** A wasb-style URI is its scheme and `://` followed by its authority `<container>@<host>` and the rest. */
  lemma WasbStyleTail(scheme: string, container: string, host: string, rest: string)
    ensures scheme + "://" + container + "@" + host + rest == scheme + "://" + (container + "@" + host + rest)
  {
    var a := scheme + "://";
    AppendAssoc(a, container + "@" + host, rest);
    AppendAssoc(a, container + "@", host);
    AppendAssoc(a, container, "@");
  }

  /** A wasb URI does not start with `http`. */
  lemma WasbNotHttp(scheme: string, tail: string)
    requires scheme == "wasb" || scheme == "wasbs"
    ensures !("http" <= scheme + "://" + tail)
  {
    var uri := scheme + "://" + tail;
    assert uri[0] == scheme[0] == 'w' != "http"[0];
  }

  lemma WasbStyleNamePiece(scheme: string, container: string, account: string, service: string,
                           endpoint: string, x: string)
    requires scheme == "wasb" || scheme == "wasbs"
    requires WellFormedParts(account, service, endpoint, container, "") && '@' !in container
    ensures var uri := WasbStyleURI(scheme, container, account, service, endpoint, "/" + x);
      IsBlobURI(uri) && !("http" <= uri) && |SplitN(uri, '/', 4)| == 4 && SplitN(uri, '/', 4)[3] == x
  {
    var host := Host(account, service, endpoint);
    var authority := container + "@" + host;
    WasbStyleTail(scheme, container, host, "/" + x);
    HostHasNoSlash(account, service, endpoint);
    SchemeAuthorityPieces(scheme, authority, x);
    WasbNotHttp(scheme, authority + ("/" + x));
  }

  /** The blob name of a wasb-style URI is the path after the authority, without the query. */
  lemma WasbStyleBlobName(scheme: string, container: string, account: string, service: string,
                          endpoint: string, path: string, query: string)
    requires scheme == "wasb" || scheme == "wasbs"
    requires WellFormedParts(account, service, endpoint, container, "") && '@' !in container
    requires '?' !in path && (query == "" || query[0] == '?')
    ensures ParseBlobName(WasbStyleURI(scheme, container, account, service, endpoint, "/" + (path + query)))
      == Success(path)
  {
    WasbStyleNamePiece(scheme, container, account, service, endpoint, path + query);
    CutQuery(path, query);
  }

  // ---------------------------------------------------------------------------
  // Field validation

  datatype Field = AccountName | AccountKey | EntryPoint | Container

  function FieldName(f: Field): string
  {
    match f
    case AccountName => "AccountName"
    case AccountKey => "AccountKey"
    case EntryPoint => "EntryPoint"
    case Container => "Container"
  }

  predicate IsEmpty(b: BlobContext, f: Field)
  {
    match f
    case AccountName => b.accountName == ""
    case AccountKey => b.accountKey == ""
    case EntryPoint => b.entryPoint == ""
    case Container => b.container == ""
  }

  /** The fields among `fields` that `b` leaves empty, in the order of `fields`. */
  function Missing(b: BlobContext, fields: seq<Field>): (m: seq<Field>)
    ensures forall f :: f in m <==> f in fields && IsEmpty(b, f)
  {
    if fields == [] then []
    else (if IsEmpty(b, fields[0]) then [fields[0]] else []) + Missing(b, fields[1..])
  }

  /** The fields `Validate` checks, in the order it reports them. */
  const Credentials := [AccountName, AccountKey, EntryPoint]

  /** The report line for a missing field. */
  function Line(f: Field): (l: string)
    ensures l == FieldName(f) + " is required"
  {
    match f
    case AccountName => "AccountName is required"
    case AccountKey => "AccountKey is required"
    case EntryPoint => "EntryPoint is required"
    case Container => "Container is required"
  }

  /** Reads an error message back as the list of fields it reports missing. */
  function ReadMissing(msg: string): seq<Field>
  {
    var lines := Split(msg, '\n');
    FieldsOfLines(lines[..|lines| - 1])
  }

  function FieldOfLine(l: string): Field
  {
    if l == "AccountName is required" then AccountName
    else if l == "AccountKey is required" then AccountKey
    else if l == "EntryPoint is required" then EntryPoint
    else Container
  }

  function FieldsOfLines(lines: seq<string>): seq<Field>
  {
    if lines == [] then [] else [FieldOfLine(lines[0])] + FieldsOfLines(lines[1..])
  }

  /** `Validate`: fails exactly when the account name, key or endpoint is empty, naming each missing one in that order. */
  function Validate(b: BlobContext): (r: Option<string>)
    ensures r.None? <==> Missing(b, Credentials) == []
    ensures r.Some? ==> ReadMissing(r.value) == Missing(b, Credentials)
  {
    var e := (if b.accountName == "" then Line(AccountName) + "\n" else "")
      + (if b.accountKey == "" then Line(AccountKey) + "\n" else "")
      + (if b.entryPoint == "" then Line(EntryPoint) + "\n" else "");
    CredentialsMessage(b);
    ReadMessage(Missing(b, Credentials));
    if e != "" then Some(e) else None
  }

  /** `ValidateWithContainer`: Validate's report, followed by a line for an empty container name. */
  function ValidateWithContainer(b: BlobContext): (r: Option<string>)
    ensures r.None? <==> Validate(b).None? && b.container != ""
    ensures r.Some? ==> ReadMissing(r.value) == Missing(b, Credentials + [Container])
  {
    var e := (match Validate(b) case Some(m) => m case None => "")
      + (if b.container == "" then Line(Container) + "\n" else "");
    ValidateIsMessage(b);
    ContainerMessage(b);
    ReadMessage(Missing(b, Credentials + [Container]));
    if e != "" then Some(e) else None
  }

  /** The report for a list of missing fields: one line per field. */
  function Message(fs: seq<Field>): string
  {
    if fs == [] then "" else Line(fs[0]) + "\n" + Message(fs[1..])
  }

  lemma MissingCons(b: BlobContext, fs: seq<Field>)
    requires fs != []
    ensures Message(Missing(b, fs)) == (if IsEmpty(b, fs[0]) then Line(fs[0]) + "\n" else "") + Message(Missing(b, fs[1..]))
  {
    var m := Missing(b, fs[1..]);
    if IsEmpty(b, fs[0]) {
      assert Missing(b, fs) == [fs[0]] + m;
      assert ([fs[0]] + m)[0] == fs[0] && ([fs[0]] + m)[1..] == m;
    } else {
      assert Missing(b, fs) == [] + m == m;
    }
  }

  lemma CredentialsMessage(b: BlobContext)
    ensures Message(Missing(b, Credentials)) ==
      (if b.accountName == "" then Line(AccountName) + "\n" else "")
      + (if b.accountKey == "" then Line(AccountKey) + "\n" else "")
      + (if b.entryPoint == "" then Line(EntryPoint) + "\n" else "")
  {
    var a := if b.accountName == "" then Line(AccountName) + "\n" else "";
    var k := if b.accountKey == "" then Line(AccountKey) + "\n" else "";
    var e := if b.entryPoint == "" then Line(EntryPoint) + "\n" else "";
    var f1, f2 := [AccountKey, EntryPoint], [EntryPoint];
    assert Credentials[1..] == f1 && f1[1..] == f2 && f2[1..] == [];
    assert Message(Missing(b, [])) == "";
    MissingCons(b, f2);
    assert Message(Missing(b, f2)) == e;
    MissingCons(b, f1);
    assert Message(Missing(b, f1)) == k + e;
    MissingCons(b, Credentials);
    assert Message(Missing(b, Credentials)) == a + (k + e);
    AppendAssoc(a, k, e);
  }

  lemma ValidateIsMessage(b: BlobContext)
    ensures Validate(b) == if Missing(b, Credentials) == [] then None else Some(Message(Missing(b, Credentials)))
  {
    CredentialsMessage(b);
  }

  lemma {:induction false} MissingAppend(b: BlobContext, fs: seq<Field>, gs: seq<Field>)
    ensures Missing(b, fs + gs) == Missing(b, fs) + Missing(b, gs)
  {
    if fs == [] {
      assert fs + gs == gs;
    } else {
      assert (fs + gs)[1..] == fs[1..] + gs;
      MissingAppend(b, fs[1..], gs);
    }
  }

  lemma ContainerMessage(b: BlobContext)
    ensures Message(Missing(b, Credentials + [Container])) ==
      Message(Missing(b, Credentials)) + (if b.container == "" then Line(Container) + "\n" else "")
  {
    MissingAppend(b, Credentials, [Container]);
    MessageAppend(Missing(b, Credentials), Missing(b, [Container]));
    assert [Container][1..] == [];
    MissingCons(b, [Container]);
    assert Message(Missing(b, [Container])) == (if b.container == "" then Line(Container) + "\n" else "");
  }

  lemma {:induction false} MessageAppend(fs: seq<Field>, gs: seq<Field>)
    ensures Message(fs + gs) == Message(fs) + Message(gs)
  {
    if fs != [] {
      assert (fs + gs)[1..] == fs[1..] + gs;
      MessageAppend(fs[1..], gs);
    } else {
      assert fs + gs == gs;
    }
  }

  /** A report reads back as the fields it was made from. */
  lemma {:induction false} ReadMessage(fs: seq<Field>)
    ensures ReadMissing(Message(fs)) == fs
  {
    var lines := Lines(fs);
    MessageJoin(fs);
    forall k | 0 <= k < |lines + [""]| ensures '\n' !in (lines + [""])[k] {
      if k < |lines| { LineHasNoNewline(fs[k]); }
    }
    JoinSplit(lines + [""], '\n');
    assert (lines + [""])[..|lines|] == lines;
    FieldsOfLinesOfFields(fs);
  }

  function Lines(fs: seq<Field>): (lines: seq<string>)
    ensures |lines| == |fs| && forall k :: 0 <= k < |fs| ==> lines[k] == Line(fs[k])
  {
    if fs == [] then [] else [Line(fs[0])] + Lines(fs[1..])
  }

  lemma LineHasNoNewline(f: Field)
    ensures '\n' !in Line(f)
  {
  }

  lemma FieldOfLineLine(f: Field)
    ensures FieldOfLine(Line(f)) == f
  {
  }

  lemma {:induction false} MessageJoin(fs: seq<Field>)
    ensures Message(fs) == Join(Lines(fs) + [""], '\n')
  {
    if fs != [] {
      MessageJoin(fs[1..]);
      assert (Lines(fs) + [""])[1..] == Lines(fs[1..]) + [""];
    }
  }

  lemma {:induction false} FieldsOfLinesOfFields(fs: seq<Field>)
    ensures FieldsOfLines(Lines(fs)) == fs
  {
    if fs != [] {
      FieldsOfLinesOfFields(fs[1..]);
      FieldOfLineLine(fs[0]);
      assert Lines(fs)[1..] == Lines(fs[1..]);
    }
  }
}
